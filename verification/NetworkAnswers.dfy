/**
 Answers arrive. Whatever partial results and whatever result a handler gives to a call, some run of all
 parts carries them to the caller, just as they were given.
 */
module NetworkAnswers {
  import opened Wrappers
  import opened Rpc
  import opened Sequences
  import opened ApiTables
  import S = Swiboe
  import L = RpcLoop
  import C = CalleeContext
  import opened CallProtocol
  import opened Network
  import opened W = NetworkWitnesses
  import opened Dispatch

  // ---------- One step each ----------

  /** Nothing is under way at all. */
  ghost predicate Still(s: System) { Quiet(s) && s.down == [] }

  /** A loop takes the only command there is. */
  lemma LoopTakes(s: System) returns (s': System)
    requires Reached(s) && |s.loopQueue| == 1 && s.loopQueue[0].client in s.loops
    requires s.loops[s.loopQueue[0].client].running
    ensures Reached(s') && s' == LoopTurned(s, 0)
  {
    hide Reached, LoopTurned;
    s' := LoopTurned(s, 0);
    ReachedNext(s, LoopTurns(0), s');
  }

  /** The bridge delivers its only message, and the client reads it. */
  lemma Delivers(s: System, k: ClientId, m: Message) returns (s': System)
    requires Reached(s) && s.bridge == [SendData(k, m)] && s.down == [] && s.loopQueue == [] && k in s.live
    ensures Reached(s') && s' == s.(bridge := [], loopQueue := [LoopItem(k, L.Received(m))])
  {
    hide Reached;
    var s1 := BridgeSent(s);
    ReachedNext(s, BridgeSends, s1);
    s' := Arrives(s1, k, m);
  }

  lemma Arrives(s: System, k: ClientId, m: Message) returns (s': System)
    requires Reached(s) && s.down == [SendData(k, m)] && s.loopQueue == []
    ensures Reached(s') && s' == s.(down := [], loopQueue := [LoopItem(k, L.Received(m))])
  {
    hide Reached;
    s' := DownArrived(s, 0);
    ReachedNext(s, DownArrives(0), s');
  }

  // ---------- A procedure starts ----------

  /** The reply to a registration is read. */
  lemma ReplyRead(s: System, k: ClientId, context: string, result: RpcResult) returns (s': System)
    requires Quiet(s) && Running(s, k) && s.down == [LastTo(k, context, result)]
    requires context in s.callers && context in s.loops[k].state.runningFunctionCalls
    requires s.loops[k].state.runningFunctionCalls[context] == context
    ensures Still(s') && s'.callers == s.callers[context := Caller(s.callers[context].client,
                                                                   s.callers[context].delivered + [Last(result)])]
    ensures s'.loops == s.loops && s'.live == s.live && s'.server == s.server && s'.callees == s.callees
  {
    hide Reached;
    var s1 := Arrives(s, k, Message.RpcResponse(Response(context, Last(result))));
    s' := LoopTakes(s1);
    assert s'.loops == s.loops;
  }

  /** The client's own loop learns of the procedure. */
  lemma LoopLearns(s: System, k: ClientId, name: string) returns (s': System)
    requires Still(s) && Running(s, k)
    ensures Still(s') && Running(s', k) && name in s'.loops[k].state.remoteProcedures
    ensures s' == s.(loops := s'.loops) && forall j :: j != k && Running(s, j) ==> Running(s', j)
  {
    hide Reached;
    var s1 := Enqueued(s, k, L.NewRpc(name));
    ReachedNext(s, AppRegisters(k, name), s1);
    s' := LoopTakes(s1);
  }

  const CONTEXT := "c"

  /** Client `A` has a procedure running for a call of `K`, which has received `delivered`; nothing is under way. */
  ghost predicate Working(s: System, call: Call, delivered: seq<ResponseKind>) {
    && Still(s) && Waits(s, call, delivered)
    && call.context in s.loops[W.A].state.runningRpcCalls && s.loops[W.A].state.runningRpcCalls[call.context] == 0
    && s.callees == [Callee(W.A, call.context, C.Alive, 0)]
  }

  ghost predicate Waits(s: System, call: Call, delivered: seq<ResponseKind>) {
    && Running(s, W.A) && Running(s, K)
    && call.context in s.loops[K].state.runningFunctionCalls
    && s.loops[K].state.runningFunctionCalls[call.context] == call.context
    && call.context in s.callers && s.callers[call.context] == Caller(K, delivered)
    && call.context in s.server.runningRpcs && s.server.runningRpcs[call.context] == S.RunningRpc(K, W.A, call)
  }

  /** The offer arrives, and the procedure starts. */
  lemma ProcedureStarts(s: System, call: Call) returns (s': System)
    requires Reached(s) && s.serverUp && s.inbox == [] && s.bridge == [Offer(W.A, call)] && s.down == []
    requires s.up == [] && s.loopQueue == [] && s.callees == [] && Waits(s, call, [])
    requires call.function_ in s.loops[W.A].state.remoteProcedures
    ensures Working(s', call, [])
  {
    hide Reached;
    var s1 := Delivers(s, W.A, Message.RpcCall(call));
    s' := LoopTakes(s1);
  }

  // ---------- A response travels ----------

  /** The procedure does `op`, which emits `kind`, and the response reaches the server. */
  lemma Emitting(s: System, call: Call, delivered: seq<ResponseKind>, op: C.Op, kind: ResponseKind) returns (s': System)
    requires Working(s, call, delivered)
    requires C.Emission(C.Alive, C.Event(op, C.Empty, true)) == Some(kind)
    ensures Reached(s') && s'.inbox == [S.RpcResponse(Response(call.context, kind))]
    ensures s' == s.(callees := s'.callees, log := s'.log, inbox := s'.inbox)
    ensures s'.callees == [Callee(W.A, call.context, C.StateAfter(C.Alive, C.Event(op, C.Empty, true)), 0)]
  {
    hide Reached;
    var m := Message.RpcResponse(Response(call.context, kind));
    var s1 := CalleeActed(s, 0, op);
    ReachedNext(s, CalleeActs(0, op), s1);
    var s2 := LoopTakes(s1);
    assert [m][1..] == [] && Outgoing(W.A, [m]) == [UpItem(W.A, m)];
    assert s2.loops == s.loops;
    s' := UpArrived(s2, 0);
    ReachedNext(s2, UpArrives(0), s');
  }

  /** The server passes the response on, and the caller receives it. */
  lemma PassedOn(s: System, call: Call, delivered: seq<ResponseKind>, kind: ResponseKind) returns (s': System)
    requires Reached(s) && s.serverUp && s.inbox == [S.RpcResponse(Response(call.context, kind))]
    requires s.bridge == [] && s.down == [] && s.up == [] && s.loopQueue == [] && Waits(s, call, delivered)
    requires kind != Last(NotHandled)
    ensures Still(s') && s'.callers == s.callers[call.context := Caller(K, delivered + [kind])]
    ensures s'.loops == s.loops && s'.live == s.live && s'.callees == s.callees
    ensures kind.Partial? ==> s'.server == s.server
  {
    hide Reached;
    var o := S.OnRpcResponse(s.server, Response(call.context, kind));
    ReachedTurn(s, o);
    var s1 := ServerTurned(s, o);
    var s2 := Delivers(s1, K, Message.RpcResponse(Response(call.context, kind)));
    s' := LoopTakes(s2);
    assert s'.loops == s.loops;
  }

  lemma Relays(s: System, call: Call, delivered: seq<ResponseKind>, op: C.Op, kind: ResponseKind) returns (s': System)
    requires Working(s, call, delivered) && kind != Last(NotHandled)
    requires C.Emission(C.Alive, C.Event(op, C.Empty, true)) == Some(kind)
    ensures Reached(s') && s'.callers == s.callers[call.context := Caller(K, delivered + [kind])]
    ensures kind.Partial? && op.Update? ==> Working(s', call, delivered + [kind])
  {
    hide Reached;
    var s1 := Emitting(s, call, delivered, op, kind);
    s' := PassedOn(s1, call, delivered, kind);
  }

  function AsPartials(values: seq<Value>): seq<ResponseKind> {
    seq(|values|, i requires 0 <= i < |values| => Partial(values[i]))
  }

  lemma {:induction false} Streams(s: System, call: Call, values: seq<Value>) returns (s': System)
    requires Working(s, call, [])
    ensures Working(s', call, AsPartials(values)) && s'.callers.Keys == s.callers.Keys
    decreases |values|
  {
    hide Working;
    if values == [] {
      s' := s;
      assert AsPartials(values) == [];
    } else {
      var v := LastOf(values);
      var s1 := Streams(s, call, DropLast(values));
      s' := Relays(s1, call, AsPartials(DropLast(values)), C.Update(v), Partial(v));
      assert AsPartials(values) == AsPartials(DropLast(values)) + [Partial(v)];
      assert call.context in s1.callers by { hide *; WorkingKnows(s1, call, AsPartials(DropLast(values))); }
    }
  }

  lemma WorkingKnows(s: System, call: Call, delivered: seq<ResponseKind>)
    requires Working(s, call, delivered)
    ensures call.context in s.callers
  {
  }

  lemma CallRuns(name: string, args: Value) returns (s: System)
    requires !(S.CORE_FUNCTIONS_PREFIX <= name)
    ensures Working(s, Call(name, CONTEXT, args), [])
  {
    hide Reached;
    var info, call := ApiInfo(W.A, 10), Call(name, CONTEXT, args);
    var s0 := Meet();
    RegistersFirst(name, info);
    var s1 := Registers(s0, W.A, "a", name, 10, map[name := [info]]);
    assert s1.down == [LastTo(W.A, "a", Ok(Json("null")))];
    var s2 := ReplyRead(s1, W.A, "a", Ok(Json("null")));
    var s3 := LoopLearns(s2, W.A, name);
    var s4 := Offers(s3, K, call, info);
    s := ProcedureStarts(s4, call);
  }

  /** Any partial results and any result but a refusal: a run of all parts brings just these to the caller. */
  lemma AnyAnswer(name: string, args: Value, values: seq<Value>, result: RpcResult)
    requires !(S.CORE_FUNCTIONS_PREFIX <= name) && result != NotHandled
    ensures exists s, c :: Reached(s) && c in s.callers
                           && s.callers[c] == Caller(K, AsPartials(values) + [Last(result)])
  {
    hide Reached, Working;
    var call := Call(name, CONTEXT, args);
    var s0 := CallRuns(name, args);
    var s1 := Streams(s0, call, values);
    var s := Relays(s1, call, AsPartials(values), C.Finish(result), Last(result));
    assert s.callers[call.context] == Caller(K, AsPartials(values) + [Last(result)]);
  }

  // ---------- A cancellation travels ----------

  /** A caller cancels, and the procedure that serves its call is told: it has a command to poll. */
  lemma CancelTravels(s: System, call: Call, delivered: seq<ResponseKind>) returns (s': System)
    requires Working(s, call, delivered)
    ensures Reached(s') && s'.callees == [Callee(W.A, call.context, C.Alive, 1)] && s'.callers == s.callers
  {
    hide Reached;
    var m := Message.RpcCancel(call.context);
    var s1 := Enqueued(s, K, L.CancelOutgoingRpc(call.context));
    ReachedNext(s, AppCancels(call.context), s1);
    var s2 := LoopTakes(s1);
    assert [m][1..] == [] && Outgoing(K, [m]) == [UpItem(K, m)];
    assert s2.loops == s.loops;
    var s3 := UpArrived(s2, 0);
    ReachedNext(s2, UpArrives(0), s3);
    var o := S.Proceed(s3.server, S.OnRpcCancel(s3.server, call.context));
    ReachedTurn(s3, o);
    var s4 := ServerTurned(s3, o);
    var s5 := Delivers(s4, W.A, m);
    s' := LoopTakes(s5);
  }

  /** After any partial results a caller can cancel; then the procedure's next look shows it the cancellation,
      and it is over without another word. */
  lemma AnyCancel(name: string, args: Value, values: seq<Value>, op: C.Op)
    requires !(S.CORE_FUNCTIONS_PREFIX <= name)
    ensures exists s: System, s' :: Reached(s) && Next(s, CalleeActs(0, op), s') && |s.callees| == 1 == |s'.callees|
                                    && CONTEXT in s.callers
                                    && s.callees[0].state.Alive? && s'.callees[0].state.Cancelled?
                                    && s'.loopQueue == s.loopQueue && s'.log == s.log
                                    && s.callers[CONTEXT] == Caller(K, AsPartials(values))
  {
    hide Reached, Working;
    var call := Call(name, CONTEXT, args);
    var s0 := CallRuns(name, args);
    var s1 := Streams(s0, call, values);
    WorkingDelivered(s1, call, AsPartials(values));
    var s2 := CancelTravels(s1, call, AsPartials(values));
    CancelSeen(s2, op);
    assert Next(s2, CalleeActs(0, op), CalleeActed(s2, 0, op));
  }

  lemma WorkingDelivered(s: System, call: Call, delivered: seq<ResponseKind>)
    requires Working(s, call, delivered)
    ensures call.context in s.callers && s.callers[call.context] == Caller(K, delivered)
  {
  }

  lemma CancelSeen(s: System, op: C.Op)
    requires |s.callees| == 1 && s.callees[0].cancels == 1
    ensures var s' := CalleeActed(s, 0, op);
            s'.callees[0].state.Cancelled? && s'.loopQueue == s.loopQueue && s'.log == s.log
  {
  }
}
