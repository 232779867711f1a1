/** The reply-port protocol shared by the three privileged hosts.

    A worker posts `[cmd, ...args]` together with a fresh `MessagePort`; the
    host answers on that port and then closes it. What the host does on the
    port is modelled as a trace of `PortEvent`s. */
module Rpc {
  import opened Base

  /** Something a host posts: a payload produced by a command, or one of the
      literal markers `{done: true}`, `{error: true}` and `false`. Payloads are
      assumed distinct from the markers. */
  datatype Msg<V> = Val(v: V) | DoneMark | ErrorMark | FalseMark

  datatype PortEvent<V> = Post(m: Msg<V>) | Close

  /** How a generator-valued command behaved: the values it yielded, in order,
      then whether it returned (`finished`) or threw. */
  datatype Run<V> = Run(values: seq<V>, finished: bool)

  /** How a plain command behaved: it returned a value or threw. */
  datatype Single<V> = Returned(v: V) | Threw

  const GetArgs := "getArgs"

  predicate IsTerminal<V>(m: Msg<V>)
  {
    m.DoneMark? || m.ErrorMark?
  }

  /** The port is closed exactly once, as the last event. */
  predicate ClosedOnceAtEnd<V>(t: seq<PortEvent<V>>)
  {
    |t| > 0 && t[|t| - 1] == Close && forall i :: 0 <= i < |t| - 1 ==> t[i].Post?
  }

  /** Value frames, then exactly one terminal frame, then the close. */
  predicate WellFramed<V>(t: seq<PortEvent<V>>)
  {
    && |t| >= 2
    && t[|t| - 1] == Close
    && t[|t| - 2].Post? && IsTerminal(t[|t| - 2].m)
    && forall i :: 0 <= i < |t| - 2 ==> t[i].Post? && t[i].m.Val?
  }

  /** One message, then the close. */
  predicate SingleFramed<V>(t: seq<PortEvent<V>>)
  {
    |t| == 2 && t[0].Post? && t[1] == Close
  }

  function ValueFrames<V>(vs: seq<V>): (t: seq<PortEvent<V>>)
    ensures |t| == |vs|
    ensures forall i :: 0 <= i < |vs| ==> t[i] == Post(Val(vs[i]))
  {
    if |vs| == 0 then [] else [Post(Val(vs[0]))] + ValueFrames(vs[1..])
  }

  /** The streaming branch of `handleMessage`: every yielded value is posted
      as it is produced, then `{done: true}` if the generator returned or
      `{error: true}` if it threw, then the port is closed. */
  function StreamReply<V>(r: Run<V>): (t: seq<PortEvent<V>>)
    ensures WellFramed(t) && ClosedOnceAtEnd(t)
    ensures |t| == |r.values| + 2
    ensures forall i :: 0 <= i < |r.values| ==> t[i] == Post(Val(r.values[i]))
    ensures t[|r.values|] == Post(DoneMark) <==> r.finished
    ensures t[|r.values|] == Post(ErrorMark) <==> !r.finished
  {
    ValueFrames(r.values) + [Post(if r.finished then DoneMark else ErrorMark), Close]
  }

  /** A single-reply `handleMessage`: the returned value, or the host's
      failure message when the command threw, then the close. */
  function SingleReply<V>(s: Single<V>, failure: Msg<V>): (t: seq<PortEvent<V>>)
    ensures SingleFramed(t) && ClosedOnceAtEnd(t)
    ensures s.Returned? ==> t[0] == Post(Val(s.v))
    ensures s.Threw? ==> t[0] == Post(failure)
  {
    [Post(if s.Returned? then Val(s.v) else failure), Close]
  }

  /** What a reader of the port can reconstruct from a trace: the values and
      whether the stream completed. `None` for a trace that is not well framed. */
  function Observe<V>(t: seq<PortEvent<V>>): Option<Run<V>>
  {
    if |t| == 2 && t[0] == Post(DoneMark) && t[1] == Close then Some(Run([], true))
    else if |t| == 2 && t[0] == Post(ErrorMark) && t[1] == Close then Some(Run([], false))
    else if |t| > 2 && t[0].Post? && t[0].m.Val? then
      match Observe(t[1..])
      case Some(r) => Some(Run([t[0].m.v] + r.values, r.finished))
      case None => None
    else None
  }

  /** Framing loses nothing: reading a streamed reply gives back exactly the
      values in production order and how the generator ended. */
  lemma {:induction false} ObserveStreamReply<V>(r: Run<V>)
    ensures Observe(StreamReply(r)) == Some(r)
    decreases |r.values|
  {
    if |r.values| > 0 {
      var v := r.values[0];
      var tail := Run(r.values[1..], r.finished);
      StreamReplyCons(r);
      ObserveStreamReply(tail);
      ObserveCons(v, StreamReply(tail));
      assert [v] + r.values[1..] == r.values;
    }
  }

  lemma StreamReplyCons<V>(r: Run<V>)
    requires |r.values| > 0
    ensures StreamReply(r) == [Post(Val(r.values[0]))] + StreamReply(Run(r.values[1..], r.finished))
  {
    assert ValueFrames(r.values) == [Post(Val(r.values[0]))] + ValueFrames(r.values[1..]);
  }

  lemma ObserveCons<V>(v: V, t: seq<PortEvent<V>>)
    requires |t| >= 2
    ensures Observe([Post(Val(v))] + t)
      == match Observe(t)
         case Some(r) => Some(Run([v] + r.values, r.finished))
         case None => None
  {
    assert ([Post(Val(v))] + t)[1..] == t;
  }

  /** Every well-framed trace is the streamed reply of the run observed from it. */
  lemma {:induction false} StreamReplyObserve<V>(t: seq<PortEvent<V>>)
    requires WellFramed(t)
    ensures Observe(t).Some? && StreamReply(Observe(t).value) == t
    decreases |t|
  {
    if |t| > 2 {
      assert WellFramed(t[1..]);
      StreamReplyObserve(t[1..]);
      var r := Observe(t[1..]).value;
      assert Observe(t) == Some(Run([t[0].m.v] + r.values, r.finished));
      assert StreamReply(Run([t[0].m.v] + r.values, r.finished))
          == [Post(Val(t[0].m.v))] + StreamReply(r);
    }
  }

  /** The `handleMessage` of run-container-build.js and
      run-build-in-container.js over the command `table`: `getArgs` is a plain
      command answered with one bare message, every other name in the table
      is a generator whose values are streamed, and any other name throws
      before anything is posted. `single` is how `getArgs` behaved and `run`
      how the named generator behaved. */
  function HandleMixed<V>(table: set<string>, cmd: string, single: Single<V>, run: Run<V>)
    : (t: seq<PortEvent<V>>)
    ensures ClosedOnceAtEnd(t)
    ensures cmd == GetArgs ==>
      SingleFramed(t) && t[0] != Post(DoneMark) && (single.Returned? ==> t[0] == Post(Val(single.v)))
    ensures cmd != GetArgs ==> WellFramed(t)
    ensures cmd != GetArgs && cmd in table ==> Observe(t) == Some(run)
    ensures cmd != GetArgs && cmd !in table ==> t == [Post(ErrorMark), Close]
  {
    if cmd == GetArgs then SingleReply(single, ErrorMark)
    else if cmd in table then ObserveStreamReply(run); StreamReply(run)
    else StreamReply(Run([], false))
  }

  /** After a failure mid-stream the reader sees exactly the values produced
      before it, then `{error: true}`, and never `{done: true}`. */
  lemma StreamFailure<V>(vs: seq<V>)
    ensures StreamReply(Run(vs, false)) == ValueFrames(vs) + [Post(ErrorMark), Close]
    ensures forall i :: 0 <= i < |vs| + 2 ==> StreamReply(Run(vs, false))[i] != Post(DoneMark)
  {
  }
}
