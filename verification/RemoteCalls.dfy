/** The session and the codec together: what a remote function call returns. */
module RemoteCalls {
  import opened Wire
  import R = Registry
  import S = Session
  import T = SessionTheorems

  /** `m` carries the call of the registered function `k` with the arguments `vs`. */
  ghost predicate Carries(t: R.Tables, m: Message, k: nat, vs: seq<R.Value>) {
    && R.WellFormed(t) && R.AllWellTyped(t, vs) && k < |t.calls|
    && |vs| == |t.calls[k].args| && R.Matches(t, t.calls[k], vs)
    && R.Written(t, k + 1, vs) == Some(m.payload)
  }

  /** What the server's Execute makes of a payload. */
  function Invoked(t: R.Tables, payload: seq<byte>): R.Invocation {
    match R.Decode(t, payload)
    case Params(fcode, args) => R.Execute(t, fcode, args)
    case OutOfBounds => R.NoSuchFunction
  }

  lemma CarriedCallInvoked(t: R.Tables, m: Message, k: nat, vs: seq<R.Value>)
    requires Carries(t, m, k, vs)
    ensures Invoked(t, m.payload) == R.Invoke(t.calls[k].name, R.AllSet(vs))
  {
    R.RemoteCallInvokesFunction(t, k, vs);
  }

  /** The answer to a request is the result of an execution of that very message. */
  lemma AnswerOf(c: S.Config, s: S.Session, m: Message, op: byte, value: seq<byte>) returns (e: S.Execution)
    requires S.Reachable(c, s) && m in s.up.pushed && T.IsAnswer(s, m.id, op, value)
    ensures e in s.executed && e.request == m && e.result == value
    ensures forall f <- s.executed :: f.request.id == m.id ==> f == e
  {
    T.ReachableInv(c, s);
    e :| e in s.executed && e.request in s.up.pushed && e.request.id == m.id && e.result == value
         && forall f <- s.executed :: f.request.id == m.id ==> f == e;
    T.SameIdSameMessage(s.up.pushed, e.request, m);
  }

  /** A call that returned, or whose promise was fulfilled, was executed: the server invoked the function
      the client named, on the arguments the client gave, and what came back is the result of that
      execution. */
  lemma RemoteCallAnswered(c: S.Config, s: S.Session, t: R.Tables, m: Message, k: nat, vs: seq<R.Value>)
    returns (e: S.Execution)
    requires S.Reachable(c, s) && m in s.up.pushed && Carries(t, m, k, vs)
    requires m.id in s.returned || m.id in s.fulfilled
    ensures e in s.executed && e.request == m
    ensures Invoked(t, e.request.payload) == R.Invoke(t.calls[k].name, R.AllSet(vs))
    ensures m.id in s.returned ==> s.returned[m.id] == e.result
    ensures m.id in s.fulfilled ==> s.fulfilled[m.id] == e.result
  {
    T.AnswersMatchRequests(c, s);
    CarriedCallInvoked(t, m, k, vs);
    if m.id in s.returned {
      e := AnswerOf(c, s, m, S.SYNC_REQUEST, s.returned[m.id]);
      if m.id in s.fulfilled { var f := AnswerOf(c, s, m, S.ASYNC_REQUEST, s.fulfilled[m.id]); }
    } else {
      e := AnswerOf(c, s, m, S.ASYNC_REQUEST, s.fulfilled[m.id]);
    }
  }

  /** The server executes requests by running the invoked functions. */
  ghost predicate Runs(s: S.Session, t: R.Tables, run: R.Invocation -> seq<byte>) {
    forall e <- s.executed :: e.result == run(Invoked(t, e.request.payload))
  }

  /** Seen from the caller, a remote call is a local call. */
  lemma RemoteIsLocal(c: S.Config, s: S.Session, t: R.Tables, m: Message, k: nat, vs: seq<R.Value>,
                      run: R.Invocation -> seq<byte>)
    requires S.Reachable(c, s) && m in s.up.pushed && Carries(t, m, k, vs) && Runs(s, t, run)
    ensures m.id in s.returned ==> s.returned[m.id] == run(R.Invoke(t.calls[k].name, R.AllSet(vs)))
    ensures m.id in s.fulfilled ==> s.fulfilled[m.id] == run(R.Invoke(t.calls[k].name, R.AllSet(vs)))
  {
    if m.id in s.returned || m.id in s.fulfilled {
      var e := RemoteCallAnswered(c, s, t, m, k, vs);
    }
  }
}
