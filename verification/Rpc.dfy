/**
 The values that travel between clients and server: calls, responses, cancellations
 (src/rpc.rs), the wire messages that wrap them (src/ipc.rs) and the client identities
 handed out by the bridge (src/server/ipc_bridge.rs).

 A `serde_json::Value` is not interpreted, except that the arguments of `core.new_rpc` are
 recognised: `NewRpcRequest` is a value that deserialises as such a request, `Json` one that
 does not.
 */
module Rpc {
  datatype ClientId = ClientId(serial: nat, token: nat)

  type Priority = p: nat | p < 0x1_0000

  datatype Value =
    | NewRpcRequest(priority: Priority, name: string)
    | Json(text: string)

  datatype ErrorKind = UnknownRpc | Io | InvalidArgs

  datatype RpcResult =
    | Ok(value: Value)
    | Err(kind: ErrorKind, details: string)
    | NotHandled

  datatype ResponseKind = Last(result: RpcResult) | Partial(value: Value)

  datatype Response = Response(context: string, kind: ResponseKind)

  datatype Call = Call(function_: string, context: string, args: Value)

  datatype Message =
    | RpcCall(call: Call)
    | RpcResponse(response: Response)
    | RpcCancel(context: string)

  /** The one bridge command the server issues: queue `message` on the receiver's connection. */
  datatype SendData = SendData(receiver: ClientId, message: Message)

  function LastTo(receiver: ClientId, context: string, result: RpcResult): SendData {
    SendData(receiver, RpcResponse(Response(context, Last(result))))
  }

  /** The sending half of a channel: everything ever sent, in order. */
  class Sender<T> {
    var sent: seq<T>

    constructor ()
      ensures sent == []
    {
      sent := [];
    }

    method Send(value: T)
      modifies this
      ensures sent == old(sent) + [value]
    {
      sent := sent + [value];
    }
  }
}
