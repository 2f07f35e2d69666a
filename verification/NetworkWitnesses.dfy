/**
 Runs of all parts in which the chain of handlers fails its purpose: a client registered twice keeps a
 call for good, and an offer that cannot be delivered ends the chain in front of a handler that is left.
 */
module NetworkWitnesses {
  import opened Wrappers
  import opened Rpc
  import opened Sequences
  import opened ApiTables
  import S = Swiboe
  import L = RpcLoop
  import opened Network
  import opened NetworkServer
  import opened Dispatch

  lemma ReachedTurn(s: System, o: S.Outcome)
    requires Reached(s) && s.serverUp && Serves(s, o)
    ensures Reached(ServerTurned(s, o))
  {
    ReachedNext(s, ServerTurns, ServerTurned(s, o));
  }

  // ---------- Quiet moments ----------

  /** Nothing is under way but what clients have still to read. */
  ghost predicate Quiet(s: System) {
    Reached(s) && s.serverUp && s.inbox == [] && s.bridge == [] && s.up == [] && s.loopQueue == []
  }

  ghost predicate Running(s: System, k: ClientId) {
    k in s.live && k in s.loops && s.loops[k].running
  }

  /** A client connects. */
  lemma Joins(s: System, k: ClientId) returns (s': System)
    requires Quiet(s) && s.nextSerial <= k.serial
    ensures Quiet(s') && Running(s', k) && forall j :: j != k && Running(s, j) ==> Running(s', j)
    ensures s'.nextSerial == k.serial + 1 && s'.callers == s.callers
    ensures s'.server == s.server.(clients := s.server.clients + {k})
    ensures s'.down == s.down && s'.callees == s.callees
  {
    hide Reached;
    var s1 := Connected(s, k);
    ReachedNext(s, Connect(k), s1);
    var o := S.Proceed(s.server.(clients := s.server.clients + {k}), []);
    ReachedTurn(s1, o);
    s' := ServerTurned(s1, o);
  }

  /** The loops once client `k` waits for the responses to a call. */
  function Awaiting(s: System, k: ClientId, context: string): map<ClientId, Loop> {
    if k !in s.loops then s.loops
    else
      var state := s.loops[k].state;
      s.loops[k := Loop(true, state.(runningFunctionCalls := state.runningFunctionCalls[context := context]))]
  }

  /** A client sends a call, and it reaches the server's inbox. */
  lemma Sends(s: System, k: ClientId, call: Call) returns (s': System)
    requires Quiet(s) && Running(s, k) && call.context !in s.callers
    ensures Reached(s') && s'.serverUp && s'.inbox == [S.RpcCall(k, call)]
    ensures s'.bridge == [] && s'.up == [] && s'.loopQueue == []
    ensures s'.server == s.server && s'.nextSerial == s.nextSerial
    ensures s'.callers == s.callers[call.context := Caller(k, [])]
    ensures s'.live == s.live && s'.down == s.down && s'.callees == s.callees
    ensures s'.loops == Awaiting(s, k, call.context)
    ensures forall j :: Running(s, j) ==> Running(s', j)
  {
    hide Reached;
    var s1 := AppCalled(s, k, call);
    ReachedNext(s, AppCalls(k, call), s1);
    var s2 := LoopTurned(s1, 0);
    LoopSends(s1, k, call);
    ReachedNext(s1, LoopTurns(0), s2);
    s' := UpArrived(s2, 0);
    ReachedNext(s2, UpArrives(0), s');
  }

  lemma LoopSends(s: System, k: ClientId, call: Call)
    requires s.loopQueue == [LoopItem(k, L.OutgoingCall(call.context, call.context, Message.RpcCall(call)))]
    requires s.up == [] && k in s.loops && s.loops[k].running
    ensures var s' := LoopTurned(s, 0);
            && s'.up == [UpItem(k, Message.RpcCall(call))] && s'.loopQueue == []
            && s'.loops == Awaiting(s, k, call.context)
            && s' == s.(up := s'.up, loopQueue := [], loops := s'.loops)
  {
    assert [Message.RpcCall(call)][1..] == [];
    assert Outgoing(k, [Message.RpcCall(call)]) == [UpItem(k, Message.RpcCall(call))];
  }

  /** A client registers a handler; `t` is a table this may lead to. */
  lemma Registers(s: System, k: ClientId, context: string, name: string, priority: Priority, t: Table)
    returns (s': System)
    requires Quiet(s) && Running(s, k) && context !in s.callers
    requires Registered(s.server.apiTable, name, ApiInfo(k, priority), t)
    ensures Quiet(s') && s'.server == s.server.(apiTable := t) && s'.nextSerial == s.nextSerial
    ensures s'.callers == s.callers[context := Caller(k, [])]
    ensures s'.live == s.live && s'.callees == s.callees && s'.loops == Awaiting(s, k, context)
    ensures s'.down == s.down + [LastTo(k, context, Ok(Json("null")))]
    ensures forall j :: Running(s, j) ==> Running(s', j)
  {
    hide Reached, Registered;
    var call := Call("core.new_rpc", context, NewRpcRequest(priority, name));
    var s1 := Sends(s, k, call);
    assert S.CORE_FUNCTIONS_PREFIX <= call.function_;
    ReachedTurn(s1, S.OnRpcCall(s1.server, k, call));
    var s2 := ServerTurned(s1, S.OnRpcCall(s1.server, k, call));
    assert s2.inbox == [S.NewRpc(k, name, priority)];
    var o := S.Proceed(s2.server.(apiTable := t), []);
    ReachedTurn(s2, o);
    var s3 := ServerTurned(s2, o);
    assert s3.bridge == [LastTo(k, context, Ok(Json("null")))];
    s' := BridgeSent(s3);
    if k in s3.live {
      ReachedNext(s3, BridgeSends, s');
    }
  }

  /** A client calls, and the server offers the call to the first handler. */
  lemma Offers(s: System, k: ClientId, call: Call, info: ApiInfo) returns (s': System)
    requires Quiet(s) && Running(s, k) && call.context !in s.callers && !S.IsCore(call)
    requires GetFirst(s.server.apiTable, call.function_) == Some(info)
    ensures Reached(s') && s'.serverUp && s'.inbox == [] && s'.bridge == [Offer(info.clientId, call)]
    ensures s'.up == [] && s'.loopQueue == []
    ensures s'.server == s.server.(runningRpcs :=
              s.server.runningRpcs[call.context := S.RunningRpc(k, info.clientId, call)])
    ensures s'.callers == s.callers[call.context := Caller(k, [])]
    ensures s'.live == s.live && s'.down == s.down && s'.callees == s.callees
    ensures s'.loops == Awaiting(s, k, call.context)
    ensures forall j :: Running(s, j) ==> Running(s', j)
  {
    hide Reached;
    var s1 := Sends(s, k, call);
    var o := S.OnRpcCall(s1.server, k, call);
    ReachedTurn(s1, o);
    s' := ServerTurned(s1, o);
  }

  const A := ClientId(1, 1)
  const B := ClientId(2, 2)
  const K := ClientId(3, 3)

  /** Three clients have connected. */
  lemma Meet() returns (s: System)
    ensures Quiet(s) && Running(s, A) && Running(s, B) && Running(s, K) && s.callers == map[]
    ensures s.server.apiTable == map[] && s.server.runningRpcs == map[] && s.down == [] && s.callees == []
  {
    ReachedAtStart();
    hide Reached;
    var s1 := Joins(INITIAL_SYSTEM, A);
    var s2 := Joins(s1, B);
    s := Joins(s2, K);
  }

  lemma RegistersFirst(name: string, info: ApiInfo)
    ensures Registered(map[], name, info, map[name := [info]])
  {
    assert BinarySearchAnswer([], info.priority, 0);
    assert InsertedInto([], info, [info]);
  }

  lemma RegistersSecond(name: string, first: ApiInfo, second: ApiInfo)
    requires first.priority < second.priority || first == second
    ensures Registered(map[name := [first]], name, second, map[name := [first, second]])
  {
    var i := if first.priority < second.priority then 1 else 0;
    assert BinarySearchAnswer([first], second.priority, i);
    assert [first, second] == [first][..i] + [second] + [first][i..];
    assert InsertedInto([first], second, [first, second]);
    assert map[name := [first]][name := [first, second]] == map[name := [first, second]];
  }

  // ---------- A client registered twice ----------

  /**
   A state that a run of all parts reaches: the client is listed twice, and a refusal of its offers
   the call to it again and changes nothing else, so that the call never ends.
   */
  lemma RepeatedClient(name: string, priority: Priority, args: Value)
    requires !(S.CORE_FUNCTIONS_PREFIX <= name)
    ensures exists s, c :: Reached(s) && c in s.server.runningRpcs
              && Infos(s.server.apiTable, name) == [ApiInfo(A, priority), ApiInfo(A, priority)]
              && s.server.runningRpcs[c] == S.RunningRpc(K, A, Call(name, c, args))
              && S.OnRpcResponse(s.server, Response(c, Last(NotHandled))) ==
                 S.Proceed(s.server, [Offer(A, Call(name, c, args))])
  {
    hide Reached;
    var info, call := ApiInfo(A, priority), Call(name, "c", args);
    var s0 := Meet();
    RegistersFirst(name, info);
    var s1 := Registers(s0, A, "a", name, priority, map[name := [info]]);
    RegistersSecond(name, info, info);
    var s2 := Registers(s1, A, "b", name, priority, map[name := [info, info]]);
    var s3 := Offers(s2, K, call, info);
    RepeatedRefusal(s3.server, name, info, call);
  }

  lemma RepeatedRefusal(server: S.State, name: string, info: ApiInfo, call: Call)
    requires Infos(server.apiTable, name) == [info, info] && call.function_ == name
    requires call.context in server.runningRpcs
    requires server.runningRpcs[call.context] == S.RunningRpc(K, info.clientId, call)
    ensures S.OnRpcResponse(server, Response(call.context, Last(NotHandled))) ==
            S.Proceed(server, [Offer(info.clientId, call)])
  {
    GetNextFollowsFirst(server.apiTable, name, info.clientId);
    assert server.runningRpcs[call.context := server.runningRpcs[call.context]] == server.runningRpcs;
  }

  // ---------- A handler left out ----------

  /**
   A state that a run of all parts reaches: the offer to client `A` could not be delivered, client `B`
   still serves the function, and the server tells the caller that nobody handles the call.
   */
  lemma SkippedHandler(name: string, args: Value)
    requires !(S.CORE_FUNCTIONS_PREFIX <= name)
    ensures exists s, call: Call :: Reached(s) && s.serverUp && call.function_ == name
              && s.inbox == [S.SendDataFailed(A, Message.RpcCall(call))]
              && Infos(s.server.apiTable, name) == [ApiInfo(B, 20)] && B in s.live
              && S.Handled(s.server, s.inbox[0]) == S.Proceed(s.server, [LastTo(K, call.context, NotHandled)])
  {
    hide Reached;
    var first, second, call := ApiInfo(A, 10), ApiInfo(B, 20), Call(name, "c", args);
    var s0 := Meet();
    RegistersFirst(name, first);
    var s1 := Registers(s0, A, "a", name, 10, map[name := [first]]);
    RegistersSecond(name, first, second);
    var s2 := Registers(s1, B, "b", name, 20, map[name := [first, second]]);
    var s3 := Offers(s2, K, call, first);
    var s := Fails(s3, name, call);
    LeftOut(s.server, name, call);
  }

  /** Client `A` hangs up, and the offer to it comes back. */
  lemma Fails(s: System, name: string, call: Call) returns (s': System)
    requires Reached(s) && s.serverUp && s.inbox == [] && s.bridge == [Offer(A, call)]
    requires Running(s, A) && Running(s, B)
    requires s.server.apiTable == map[name := [ApiInfo(A, 10), ApiInfo(B, 20)]]
    requires s.server.runningRpcs == map[call.context := S.RunningRpc(K, A, call)]
    ensures Reached(s') && s'.serverUp && s'.inbox == [S.SendDataFailed(A, Message.RpcCall(call))] && B in s'.live
    ensures s'.server.apiTable == map[name := [ApiInfo(B, 20)]]
    ensures s'.server.runningRpcs == s.server.runningRpcs
  {
    hide Reached;
    var s1 := HungUp(s, A);
    ReachedNext(s, HangUp(A), s1);
    var s2 := BridgeSent(s1);
    ReachedNext(s1, BridgeSends, s2);
    var o := S.Proceed(S.OnClientDisconnected(s2.server, A), []);
    ReachedTurn(s2, o);
    s' := ServerTurned(s2, o);
    OneRetained();
  }

  lemma OneRetained()
    ensures Retained([ApiInfo(A, 10), ApiInfo(B, 20)], A) == [ApiInfo(B, 20)]
  {
    assert [ApiInfo(A, 10), ApiInfo(B, 20)][1..] == [ApiInfo(B, 20)];
    assert [ApiInfo(B, 20)][1..] == [];
    assert Retained([], A) == [];
    assert Retained([ApiInfo(B, 20)], A) == [ApiInfo(B, 20)];
  }

  lemma LeftOut(server: S.State, name: string, call: Call)
    requires Infos(server.apiTable, name) == [ApiInfo(B, 20)] && call.function_ == name
    requires server.runningRpcs == map[call.context := S.RunningRpc(K, A, call)]
    ensures S.Handled(server, S.SendDataFailed(A, Message.RpcCall(call))) ==
            S.Proceed(server, [LastTo(K, call.context, NotHandled)])
  {
    GetNextFollowsFirst(server.apiTable, name, A);
  }
}
