/**
 The context a caller holds while its call runs, src/client/rpc/client.rs.

 A blocking receive on the `values` channel waits, so the channel is described by what it will
 still deliver before its sender goes away.
 */
module CallerContext {
  import opened Wrappers
  import opened Rpc

  datatype Error = Disconnected

  datatype Polled = Response(kind: ResponseKind) | Empty | Gone

  class ResponseChannel {
    /** What is still to be received before the sending side is gone. */
    var rest: seq<ResponseKind>

    method Recv() returns (r: Result<ResponseKind, Error>)
      modifies this
      ensures old(rest) == [] ==> r == Failure(Disconnected) && rest == []
      ensures old(rest) != [] ==> r == Success(old(rest)[0]) && rest == old(rest)[1..]
    {
      if rest == [] {
        return Failure(Disconnected);
      }
      r := Success(rest[0]);
      rest := rest[1..];
    }

    /** `arrived` says whether something, or the end of the channel, has arrived by now. */
    method TryRecv(arrived: bool) returns (r: Polled)
      modifies this
      ensures !arrived ==> r == Empty && rest == old(rest)
      ensures arrived && old(rest) == [] ==> r == Gone && rest == []
      ensures arrived && old(rest) != [] ==> r == Polled.Response(old(rest)[0]) && rest == old(rest)[1..]
    {
      if !arrived {
        return Empty;
      }
      if rest == [] {
        return Gone;
      }
      r := Polled.Response(rest[0]);
      rest := rest[1..];
    }
  }

  /** Answer, stored result and remaining channel of receiving in a context without result. */
  function Taken(rest: seq<ResponseKind>): (Result<Option<Value>, Error>, Option<RpcResult>, seq<ResponseKind>) {
    if rest == [] then (Failure(Disconnected), None, [])
    else
      match rest[0]
      case Partial(value) => (Success(Some(value)), None, rest[1..])
      case Last(last) => (Success(None), Some(last), rest[1..])
  }

  /** Number of partial results in front of the first final one, or in all. */
  function PartialsAhead(kinds: seq<ResponseKind>): (n: nat)
    ensures n <= |kinds|
    ensures forall i :: 0 <= i < n ==> kinds[i].Partial?
    ensures n < |kinds| ==> kinds[n].Last?
  {
    if kinds == [] || kinds[0].Last? then 0 else 1 + PartialsAhead(kinds[1..])
  }

  // ---------- Receiving again and again ----------

  /** What `n` receives answer, one after another. */
  function Answers(rest: seq<ResponseKind>, result: Option<RpcResult>, n: nat): seq<Result<Option<Value>, Error>> {
    if n == 0 then []
    else if result.Some? then [Success(None)] + Answers(rest, result, n - 1)
    else
      var (answer, result', rest') := Taken(rest);
      [answer] + Answers(rest', result', n - 1)
  }

  /** The result stored after `n` receives. */
  function Stored(rest: seq<ResponseKind>, result: Option<RpcResult>, n: nat): Option<RpcResult> {
    if n == 0 || result.Some? then result
    else
      var (_, result', rest') := Taken(rest);
      Stored(rest', result', n - 1)
  }

  lemma {:induction false} AnswersDone(rest: seq<ResponseKind>, result: RpcResult, n: nat, i: nat)
    requires i < n
    ensures |Answers(rest, Some(result), n)| == n && Answers(rest, Some(result), n)[i] == Success(None)
  {
    if n > 1 {
      AnswersDone(rest, result, n - 1, if i > 0 then i - 1 else 0);
    }
  }

  /**
   Receive `i` of any number: the value of response `i` while that is a partial result; then, once the
   final response is there, always that nothing more comes, with just that result stored; and if there
   is none, always that the connection is gone.
   */
  lemma {:induction false} ReceivedInOrder(kinds: seq<ResponseKind>, n: nat, i: nat)
    requires i < n
    ensures |Answers(kinds, None, n)| == n
    ensures var partials := PartialsAhead(kinds);
            && Answers(kinds, None, n)[i] ==
                 (if i < partials then Success(Some(kinds[i].value))
                  else if partials < |kinds| then Success(None)
                  else Failure(Disconnected))
            && Stored(kinds, None, n) ==
                 if partials < n && partials < |kinds| then Some(kinds[partials].result) else None
    decreases n
  {
    var (answer, result, rest) := Taken(kinds);
    if result.Some? {
      if n > 1 {
        AnswersDone(rest, result.value, n - 1, if i > 0 then i - 1 else 0);
      }
      assert PartialsAhead(kinds) == 0;
    } else {
      if n > 1 {
        ReceivedInOrder(rest, n - 1, if i > 0 then i - 1 else 0);
      }
      assert kinds != [] ==> PartialsAhead(kinds) == 1 + PartialsAhead(rest);
    }
  }

  class Context {
    const context: string
    const values: ResponseChannel
    var result: Option<RpcResult>

    constructor (context: string, values: ResponseChannel)
      ensures this.context == context && this.values == values && result == None
    {
      this.context := context;
      this.values := values;
      result := None;
    }

    method Recv() returns (r: Result<Option<Value>, Error>)
      modifies this, values
      ensures old(result).Some? ==> r == Success(None) && values.rest == old(values.rest) && result == old(result)
      ensures old(result).None? ==>
        (r, result, values.rest) == Taken(old(values.rest))
    {
      if result.Some? {
        return Success(None);
      }
      var response := values.Recv();
      match response {
        case Failure(error) => return Failure(error);
        case Success(Partial(value)) => return Success(Some(value));
        case Success(Last(last)) =>
          result := Some(last);
          return Success(None);
      }
    }

    method TryRecv(arrived: bool) returns (r: Result<Option<Value>, Error>)
      modifies this, values
      ensures old(result).Some? || !arrived ==>
        r == Success(None) && values.rest == old(values.rest) && result == old(result)
      ensures old(result).None? && arrived ==>
        (r, result, values.rest) == Taken(old(values.rest))
    {
      if result.Some? {
        return Success(None);
      }
      var response := values.TryRecv(arrived);
      match response {
        case Empty => return Success(None);
        case Gone => return Failure(Disconnected);
        case Response(Partial(value)) => return Success(Some(value));
        case Response(Last(last)) =>
          result := Some(last);
          return Success(None);
      }
    }

    /** Waiting discards the partial results and answers the first final one; without one it
        reports the lost connection. The final result is handed out once: afterwards the context
        no longer counts as done. */
    method Wait() returns (r: Result<RpcResult, Error>)
      modifies this, values
      ensures result == None
      ensures old(result).Some? ==> r == Success(old(result).value) && values.rest == old(values.rest)
      ensures old(result).None? ==>
        var n := PartialsAhead(old(values.rest));
        if n < |old(values.rest)|
        then r == Success(old(values.rest)[n].result) && values.rest == old(values.rest)[n + 1..]
        else r == Failure(Disconnected) && values.rest == []
    {
      ghost var all, n := values.rest, PartialsAhead(values.rest);
      ghost var taken := 0;
      while true
        invariant 0 <= taken <= n <= |all|
        invariant result == old(result) && values.rest == all[taken..]
        invariant old(result).Some? ==> taken == 0
        decreases |values.rest|
      {
        var received := Recv();
        match received {
          case Failure(error) => return Failure(error);
          case Success(Some(_)) => taken := taken + 1;
          case Success(None) => break;
        }
      }
      r := Success(result.value);
      result := None;
    }

    predicate Done()
      reads this
    {
      result.Some?
    }
  }
}
