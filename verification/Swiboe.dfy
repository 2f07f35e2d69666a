/**
 The broker itself, src/server/swiboe.rs and src/server/plugin_core.rs, on values: `Handles`
 says what handling one command does. A panic of the server thread is the outcome `Panicked`;
 like `Quit` it ends the thread.
 */
module Swiboe {
  import opened Wrappers
  import opened Rpc
  import opened ApiTables

  const CORE_FUNCTIONS_PREFIX := "core."

  datatype Command =
    | Quit
    | NewRpc(clientId: ClientId, name: string, priority: Priority)
    | RpcCall(caller: ClientId, call: Call)
    | RpcResponse(response: Response)
    | RpcCancel(context: string)
    | ClientConnected(clientId: ClientId)
    | ClientDisconnected(clientId: ClientId)
    | SendDataFailed(clientId: ClientId, message: Message)

  datatype RunningRpc = RunningRpc(caller: ClientId, callee: ClientId, rpcCall: Call)

  datatype State = State(apiTable: Table, clients: set<ClientId>, runningRpcs: map<string, RunningRpc>)

  const INITIAL_STATE := State(map[], {}, map[])

  datatype Spin = Continue | Stop | Panicked

  /** What one command did: the new state, what went to the bridge, what the server put on its
      own queue, and whether its loop goes on. */
  datatype Outcome = Outcome(state: State, sent: seq<SendData>, enqueued: seq<Command>, spin: Spin)

  function Proceed(s: State, sent: seq<SendData>): Outcome {
    Outcome(s, sent, [], Continue)
  }

  predicate IsCore(call: Call) {
    CORE_FUNCTIONS_PREFIX <= call.function_
  }

  /** Result, if it did not panic, and self-enqueued command of `CorePlugin::call`. */
  function CoreCall(caller: ClientId, call: Call): (Option<RpcResult>, seq<Command>) {
    if call.function_ == "core.exit" then
      (Some(Ok(Json("null"))), [Quit])
    else if call.function_ == "core.new_rpc" && call.args.NewRpcRequest? then
      (Some(Ok(Json("null"))), [NewRpc(caller, call.args.name, call.args.priority)])
    else
      (None, [])
  }

  function OnRpcCancel(s: State, context: string): seq<SendData> {
    if context in s.runningRpcs
    then [SendData(s.runningRpcs[context].callee, Message.RpcCancel(context))]
    else []
  }

  function OnRpcResponse(s: State, r: Response): Outcome {
    if r.context !in s.runningRpcs then Proceed(s, [])
    else
      var rpc := s.runningRpcs[r.context];
      match r.kind
      case Partial(value) =>
        Proceed(s, [SendData(rpc.caller, Message.RpcResponse(Response(rpc.rpcCall.context, r.kind)))])
      case Last(NotHandled) =>
        (match GetNext(s.apiTable, rpc.rpcCall.function_, rpc.callee)
         case Some(info) =>
           Proceed(s.(runningRpcs := s.runningRpcs[r.context := rpc.(callee := info.clientId)]),
                   [SendData(info.clientId, Message.RpcCall(rpc.rpcCall))])
         case None =>
           Proceed(s, [LastTo(rpc.caller, rpc.rpcCall.context, NotHandled)]))
      case Last(result) =>
        Proceed(s.(runningRpcs := s.runningRpcs - {r.context}),
                [LastTo(rpc.caller, rpc.rpcCall.context, result)])
  }

  function OnRpcCall(s: State, caller: ClientId, call: Call): Outcome {
    if IsCore(call) then
      var (result, enqueued) := CoreCall(caller, call);
      match result
      case Some(r) => Outcome(s, [LastTo(caller, call.context, r)], enqueued, Continue)
      case None => Outcome(s, [], [], Panicked)
    else
      match GetFirst(s.apiTable, call.function_)
      case Some(info) =>
        Proceed(s.(runningRpcs := s.runningRpcs[call.context := RunningRpc(caller, info.clientId, call)]),
                [SendData(info.clientId, Message.RpcCall(call))])
      case None =>
        Proceed(s, [LastTo(caller, call.context, Err(UnknownRpc, ""))])
  }

  function OnClientDisconnected(s: State, clientId: ClientId): State {
    State(Deregistered(s.apiTable, clientId), s.clients - {clientId},
          map c | c in s.runningRpcs && s.runningRpcs[c].caller != clientId :: s.runningRpcs[c])
  }

  /** `o` is an outcome of handling `cmd` in `s`. Only a registration leaves a choice: the place
      among equal priorities. */
  ghost predicate Handles(s: State, cmd: Command, o: Outcome) {
    match cmd
    case NewRpc(clientId, name, priority) =>
      && Registered(s.apiTable, name, ApiInfo(clientId, priority), o.state.apiTable)
      && o == Proceed(s.(apiTable := o.state.apiTable), [])
    case _ => o == Handled(s, cmd)
  }

  function Handled(s: State, cmd: Command): Outcome
    requires !cmd.NewRpc?
  {
    match cmd
    case Quit => Outcome(s, [], [], Stop)
    case RpcCall(caller, call) => OnRpcCall(s, caller, call)
    case RpcResponse(response) => OnRpcResponse(s, response)
    case RpcCancel(context) => Proceed(s, OnRpcCancel(s, context))
    case SendDataFailed(_, RpcCall(call)) =>
      OnRpcResponse(s, Response(call.context, Last(NotHandled)))
    case SendDataFailed(_, _) => Proceed(s, [])
    case ClientConnected(clientId) => Proceed(s.(clients := s.clients + {clientId}), [])
    case ClientDisconnected(clientId) => Proceed(OnClientDisconnected(s, clientId), [])
  }
}
