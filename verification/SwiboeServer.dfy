/**
 The broker in the form of its source: a handler that changes its fields in place and sends on
 channels, proved to do what the value-level `Swiboe.Handles` says.
 */
module SwiboeServer {
  import opened Wrappers
  import opened Rpc
  import opened ApiTables
  import S = Swiboe
  import opened Swiboe

  class CorePlugin {
    const commands: Sender<Command>

    constructor (commands: Sender<Command>)
      ensures this.commands == commands
    {
      this.commands := commands;
    }

    method Call(caller: ClientId, call: Call) returns (result: Option<RpcResult>)
      modifies commands
      ensures result == CoreCall(caller, call).0
      ensures commands.sent == old(commands.sent) + CoreCall(caller, call).1
    {
      if call.function_ == "core.exit" {
        commands.Send(Quit);
        return Some(Ok(Json("null")));
      } else if call.function_ == "core.new_rpc" {
        match call.args
        case NewRpcRequest(priority, name) =>
          commands.Send(NewRpc(caller, name, priority));
          return Some(Ok(Json("null")));
        case Json(_) => // "Invalid arguments"
      }
      return None;
    }
  }

  class Handler {
    const apiTable: ApiTable
    var clients: set<ClientId>
    const ipcBridgeCommands: Sender<SendData>
    var runningRpcs: map<string, RunningRpc>
    const pluginCore: CorePlugin

    ghost function Parts(): set<object> {
      {this, apiTable, ipcBridgeCommands, pluginCore.commands}
    }

    ghost function View(): S.State
      reads this, apiTable
    {
      S.State(apiTable.nameInfos, clients, runningRpcs)
    }

    ghost predicate Valid()
      reads this, apiTable
    {
      WellFormed(apiTable.nameInfos) && ipcBridgeCommands as object != pluginCore.commands
    }

    constructor (ipcBridgeCommands: Sender<SendData>, commandsSender: Sender<Command>)
      requires ipcBridgeCommands as object != commandsSender
      ensures Valid() && View() == INITIAL_STATE
      ensures this.ipcBridgeCommands == ipcBridgeCommands && pluginCore.commands == commandsSender
      ensures fresh(apiTable)
    {
      apiTable := new ApiTable();
      clients := {};
      runningRpcs := map[];
      this.ipcBridgeCommands := ipcBridgeCommands;
      pluginCore := new CorePlugin(commandsSender);
    }

    method OnRpcCancel(context: string)
      requires Valid()
      modifies ipcBridgeCommands
      ensures Valid() && View() == old(View())
      ensures ipcBridgeCommands.sent == old(ipcBridgeCommands.sent) + S.OnRpcCancel(old(View()), context)
    {
      if context in runningRpcs {
        ipcBridgeCommands.Send(SendData(runningRpcs[context].callee, Message.RpcCancel(context)));
      }
    }

    method OnRpcResponse(response: Response)
      requires Valid()
      modifies this, ipcBridgeCommands
      ensures Valid()
      ensures var o := S.OnRpcResponse(old(View()), response);
              View() == o.state && ipcBridgeCommands.sent == old(ipcBridgeCommands.sent) + o.sent
    {
      if response.context !in runningRpcs {
        return;
      }
      var rpc := runningRpcs[response.context];
      match response.kind {
        case Partial(value) =>
          ipcBridgeCommands.Send(
            SendData(rpc.caller, Message.RpcResponse(Response(rpc.rpcCall.context, Partial(value)))));
        case Last(result) =>
          match result {
            case Ok(_) | Err(_, _) =>
              runningRpcs := runningRpcs - {response.context};
              ipcBridgeCommands.Send(LastTo(rpc.caller, rpc.rpcCall.context, result));
            case NotHandled =>
              match GetNext(apiTable.nameInfos, rpc.rpcCall.function_, rpc.callee) {
                case Some(info) =>
                  ipcBridgeCommands.Send(SendData(info.clientId, Message.RpcCall(rpc.rpcCall)));
                  runningRpcs := runningRpcs[response.context := rpc.(callee := info.clientId)];
                case None =>
                  ipcBridgeCommands.Send(LastTo(rpc.caller, rpc.rpcCall.context, NotHandled));
              }
          }
      }
    }

    method OnClientDisconnected(clientId: ClientId)
      requires Valid()
      modifies this, apiTable
      ensures Valid() && View() == S.OnClientDisconnected(old(View()), clientId)
    {
      clients := clients - {clientId};
      var rpcsToRemove := set context | context in runningRpcs && runningRpcs[context].caller == clientId;
      ghost var running := runningRpcs;
      ghost var toRemove := rpcsToRemove;
      while rpcsToRemove != {}
        invariant rpcsToRemove <= toRemove
        invariant runningRpcs == running - (toRemove - rpcsToRemove)
        invariant clients == old(clients) - {clientId} && apiTable.nameInfos == old(apiTable.nameInfos)
        decreases rpcsToRemove
      {
        var context :| context in rpcsToRemove;
        runningRpcs := runningRpcs - {context};
        rpcsToRemove := rpcsToRemove - {context};
      }
      DeregisterKeepsWellFormed(apiTable.nameInfos, clientId);
      apiTable.DeregisterByClient(clientId);
    }

    /** One turn of the server's loop. */
    method Handle(command: Command) returns (spin: Spin)
      requires Valid()
      modifies Parts()
      ensures Valid()
      ensures exists o :: Handles(old(View()), command, o)
                          && View() == o.state
                          && ipcBridgeCommands.sent == old(ipcBridgeCommands.sent) + o.sent
                          && pluginCore.commands.sent == old(pluginCore.commands.sent) + o.enqueued
                          && spin == o.spin
    {
      ghost var s := View();
      ghost var sent0, enqueued0 := ipcBridgeCommands.sent, pluginCore.commands.sent;
      spin := Continue;
      match command {
        case Quit =>
          spin := Stop;
        case NewRpc(clientId, name, priority) =>
          apiTable.Register(name, ApiInfo(clientId, priority));
        case RpcCall(clientId, call) =>
          if IsCore(call) {
            var result := pluginCore.Call(clientId, call);
            match result
            case Some(r) => ipcBridgeCommands.Send(LastTo(clientId, call.context, r));
            case None => spin := Panicked;
          } else {
            match GetFirst(apiTable.nameInfos, call.function_)
            case Some(info) =>
              runningRpcs := runningRpcs[call.context := RunningRpc(clientId, info.clientId, call)];
              ipcBridgeCommands.Send(SendData(info.clientId, Message.RpcCall(call)));
            case None =>
              ipcBridgeCommands.Send(LastTo(clientId, call.context, Err(UnknownRpc, "")));
          }
        case RpcResponse(response) =>
          OnRpcResponse(response);
        case RpcCancel(context) =>
          OnRpcCancel(context);
        case SendDataFailed(_, message) =>
          match message {
            case RpcResponse(_) | RpcCancel(_) =>
            case RpcCall(call) => OnRpcResponse(Response(call.context, Last(NotHandled)));
          }
        case ClientConnected(clientId) =>
          clients := clients + {clientId};
        case ClientDisconnected(clientId) =>
          OnClientDisconnected(clientId);
      }
      ghost var o := if command.NewRpc? then Proceed(View(), []) else Handled(s, command);
      assert Handles(s, command, o);
      assert View() == o.state && spin == o.spin;
      assert ipcBridgeCommands.sent == sent0 + o.sent;
      assert pluginCore.commands.sent == enqueued0 + o.enqueued;
    }
  }
}
