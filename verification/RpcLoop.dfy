/**
 The client's logic loop, src/client/rpc_loop.rs.

 `Handled` says on values what handling one command does. It is generic in how the ends of
 channels are named: `H` for the channel that cancels a running procedure, `V` for the channel
 that carries the responses of an outgoing call. `Handler` is the loop in the form of its
 source, where both are senders.
 */
module RpcLoop {
  import opened Wrappers
  import opened Rpc

  datatype Command<V> =
    | Quit
    | NewRpc(name: string)
    | Received(message: Message)
    | OutgoingCall(context: string, values: V, message: Message)
    | CancelOutgoingRpc(context: string)
    | Send(message: Message)

  datatype State<H, V> = State(
    remoteProcedures: set<string>,
    runningRpcCalls: map<string, H>,
    runningFunctionCalls: map<string, V>)

  /** What one command did. `spawned` is the call handed to the thread pool, `cancelled` the
      procedure that was sent `Cancel`, `answered` the response passed to a waiting caller. */
  datatype Outcome<H, V> = Outcome(
    state: State<H, V>,
    sent: seq<Message>,
    spawned: Option<Call>,
    cancelled: Option<H>,
    answered: Option<(V, Response)>,
    running: bool)

  function Proceed<H, V>(s: State<H, V>, sent: seq<Message>): Outcome<H, V> {
    Outcome(s, sent, None, None, None, true)
  }

  /** `channel` names the cancel channel of a procedure this command may start. */
  function Handled<H, V>(s: State<H, V>, cmd: Command<V>, channel: H): Outcome<H, V> {
    match cmd
    case Quit => Proceed(s, []).(running := false)
    case NewRpc(name) => Proceed(s.(remoteProcedures := s.remoteProcedures + {name}), [])
    case Received(RpcCall(call)) =>
      if call.function_ in s.remoteProcedures then
        Proceed(s.(runningRpcCalls := s.runningRpcCalls[call.context := channel]), []).(spawned := Some(call))
      else
        Proceed(s, [])
    case Received(RpcCancel(context)) =>
      if context in s.runningRpcCalls then
        Proceed(s.(runningRpcCalls := s.runningRpcCalls - {context}), []).(
          cancelled := Some(s.runningRpcCalls[context]))
      else
        Proceed(s, [])
    case Received(RpcResponse(response)) =>
      if response.context in s.runningFunctionCalls then
        Proceed(s, []).(answered := Some((s.runningFunctionCalls[response.context], response)))
      else
        Proceed(s, [])
    case OutgoingCall(context, values, message) =>
      Proceed(s.(runningFunctionCalls := s.runningFunctionCalls[context := values]), [message])
    case CancelOutgoingRpc(context) => Proceed(s, [RpcCancel(context)])
    case Send(message) => Proceed(s, [message])
  }

  // ---------- The class ----------

  datatype CalleeCommand = Cancel

  datatype Job = Job(call: Call, commands: Sender<CalleeCommand>)

  class Handler {
    var remoteProcedures: set<string>
    const sendQueue: Sender<Message>
    var runningRpcCalls: map<string, Sender<CalleeCommand>>
    var runningFunctionCalls: map<string, Sender<Response>>
    const threadPool: Sender<Job>

    constructor (sendQueue: Sender<Message>, threadPool: Sender<Job>)
      ensures this.sendQueue == sendQueue && this.threadPool == threadPool
      ensures View() == State({}, map[], map[])
    {
      remoteProcedures := {};
      runningRpcCalls := map[];
      runningFunctionCalls := map[];
      this.sendQueue := sendQueue;
      this.threadPool := threadPool;
    }

    ghost function View(): State<Sender<CalleeCommand>, Sender<Response>>
      reads this
    {
      State(remoteProcedures, runningRpcCalls, runningFunctionCalls)
    }

    /** One turn of the loop. Every channel other than the ones named in the outcome keeps what
        it carried. */
    method Handle(command: Command<Sender<Response>>) returns (running: bool)
      modifies this, sendQueue, threadPool, runningRpcCalls.Values, runningFunctionCalls.Values
      ensures exists tx0 ::
        var o := Handled(old(View()), command, tx0);
        && View() == o.state
        && sendQueue.sent == old(sendQueue.sent) + o.sent
        && running == o.running
        && threadPool.sent == old(threadPool.sent) +
             (match o.spawned case Some(call) => [Job(call, tx0)] case None => [])
        && (o.spawned.Some? ==> fresh(tx0) && tx0.sent == [])
        && (forall tx :: tx in old(runningRpcCalls.Values) ==>
              tx.sent == old(tx.sent) + (if o.cancelled == Some(tx) then [Cancel] else []))
        && (forall tx :: tx in old(runningFunctionCalls.Values) ==>
              tx.sent == old(tx.sent) +
                (if o.answered.Some? && o.answered.value.0 == tx then [o.answered.value.1] else []))
    {
      var channel := new Sender<CalleeCommand>();
      ghost var o := Handled(View(), command, channel);
      running := true;
      match command {
        case Quit =>
          running := false;
        case NewRpc(name) =>
          remoteProcedures := remoteProcedures + {name};
        case Received(message) =>
          match message {
            case RpcCall(call) =>
              if call.function_ in remoteProcedures {
                runningRpcCalls := runningRpcCalls[call.context := channel];
                threadPool.Send(Job(call, channel));
              }
            case RpcCancel(context) =>
              if context in runningRpcCalls {
                var tx := runningRpcCalls[context];
                runningRpcCalls := runningRpcCalls - {context};
                tx.Send(Cancel);
              }
            case RpcResponse(response) =>
              if response.context in runningFunctionCalls {
                runningFunctionCalls[response.context].Send(response);
              }
          }
        case Send(message) =>
          sendQueue.Send(message);
        case OutgoingCall(context, values, message) =>
          runningFunctionCalls := runningFunctionCalls[context := values];
          sendQueue.Send(message);
        case CancelOutgoingRpc(context) =>
          sendQueue.Send(RpcCancel(context));
      }
      assert View() == o.state && running == o.running;
    }
  }
}
