/**
 The whole system: the broker, the bridge, the connections, every client's logic loop, the
 procedures that run and the callers that wait, joined by queues.

 A queue shared by several clients is one sequence; what belongs to one client is taken from it
 in order (`FirstSent`, `FirstUp`, `FirstItem`), what belongs to different clients in any order.
 Threads are the freedom to take any enabled step.
 */
module Network {
  import opened Wrappers
  import opened Rpc
  import opened Sequences
  import S = Swiboe
  import L = RpcLoop
  import C = CalleeContext
  import opened CallProtocol

  /** A command in a client's loop queue. Contexts name the channels that carry responses. */
  datatype LoopItem = LoopItem(client: ClientId, command: L.Command<string>)

  /** A message a client has written and the server has not yet read. */
  datatype UpItem = UpItem(client: ClientId, message: Message)

  /** A running procedure: `cancels` counts the cancel commands it has not yet polled. */
  datatype Callee = Callee(client: ClientId, context: string, state: C.ContextState, cancels: nat)

  /** A caller's context and everything its `values` channel was ever sent. */
  datatype Caller = Caller(client: ClientId, delivered: seq<ResponseKind>)

  datatype Loop = Loop(running: bool, state: L.State<nat, string>)

  datatype LogEntry = LogEntry(context: string, emission: Emission)

  datatype System = System(
    server: S.State, serverUp: bool, inbox: seq<S.Command>,
    bridge: seq<SendData>, live: set<ClientId>, nextSerial: nat,
    down: seq<SendData>, up: seq<UpItem>,
    loopQueue: seq<LoopItem>, loops: map<ClientId, Loop>,
    callees: seq<Callee>, callers: map<string, Caller>,
    /** history: every response a procedure ever emitted */
    log: seq<LogEntry>)

  const INITIAL_SYSTEM :=
    System(S.INITIAL_STATE, true, [], [], {}, 1, [], [], [], map[], [], map[], [])

  datatype Step =
    | Connect(client: ClientId)
    | HangUp(client: ClientId)
    | BridgeSends
    | DownArrives(i: nat)
    | UpArrives(i: nat)
    | LoopTurns(i: nat)
    | ServerTurns
    | CalleeActs(i: nat, op: C.Op)
    | AppCalls(client: ClientId, call: Call)
    | AppCancels(context: string)
    | AppRegisters(client: ClientId, name: string)
    | AppQuits(client: ClientId)

  // ---------- What each step does ----------

  predicate FirstSent(q: seq<SendData>, i: nat) {
    i < |q| && forall j :: 0 <= j < i ==> q[j].receiver != q[i].receiver
  }

  predicate FirstUp(q: seq<UpItem>, i: nat) {
    i < |q| && forall j :: 0 <= j < i ==> q[j].client != q[i].client
  }

  predicate FirstItem(q: seq<LoopItem>, i: nat) {
    i < |q| && forall j :: 0 <= j < i ==> q[j].client != q[i].client
  }

  function Connected(s: System, k: ClientId): System {
    s.(live := s.live + {k}, nextSerial := k.serial + 1,
       loops := s.loops[k := Loop(true, L.State({}, map[], map[]))],
       inbox := s.inbox + [S.ClientConnected(k)])
  }

  function HungUp(s: System, k: ClientId): System {
    s.(live := s.live - {k}, inbox := s.inbox + [S.ClientDisconnected(k)])
  }

  function BridgeSent(s: System): System
    requires s.bridge != []
  {
    var d := s.bridge[0];
    if d.receiver in s.live then
      s.(bridge := s.bridge[1..], down := s.down + [d])
    else
      s.(bridge := s.bridge[1..], inbox := s.inbox + [S.SendDataFailed(d.receiver, d.message)])
  }

  function DownArrived(s: System, i: nat): System
    requires i < |s.down|
  {
    s.(down := Remove(s.down, i),
       loopQueue := s.loopQueue + [LoopItem(s.down[i].receiver, L.Received(s.down[i].message))])
  }

  function AsCommand(item: UpItem): S.Command {
    match item.message
    case RpcCall(call) => S.RpcCall(item.client, call)
    case RpcResponse(response) => S.RpcResponse(response)
    case RpcCancel(context) => S.RpcCancel(context)
  }

  function UpArrived(s: System, i: nat): System
    requires i < |s.up|
  {
    s.(up := Remove(s.up, i), inbox := s.inbox + [AsCommand(s.up[i])])
  }

  function Cancelling(callees: seq<Callee>, cancelled: Option<nat>): seq<Callee> {
    match cancelled
    case Some(i) => if i < |callees| then callees[i := callees[i].(cancels := callees[i].cancels + 1)] else callees
    case None => callees
  }

  function Spawning(callees: seq<Callee>, k: ClientId, spawned: Option<Call>): seq<Callee> {
    match spawned
    case Some(call) => callees + [Callee(k, call.context, C.Alive, 0)]
    case None => callees
  }

  function Answering(callers: map<string, Caller>, answered: Option<(string, Response)>): map<string, Caller> {
    match answered
    case Some((context, response)) =>
      if context in callers then
        callers[context := callers[context].(delivered := callers[context].delivered + [response.kind])]
      else callers
    case None => callers
  }

  function Outgoing(k: ClientId, messages: seq<Message>): seq<UpItem> {
    if messages == [] then [] else [UpItem(k, messages[0])] + Outgoing(k, messages[1..])
  }

  function LoopTurned(s: System, i: nat): System
    requires i < |s.loopQueue| && s.loopQueue[i].client in s.loops
  {
    var k := s.loopQueue[i].client;
    var o := L.Handled(s.loops[k].state, s.loopQueue[i].command, |s.callees|);
    s.(loopQueue := Remove(s.loopQueue, i),
       loops := s.loops[k := Loop(o.running, o.state)],
       up := s.up + Outgoing(k, o.sent),
       callees := Spawning(Cancelling(s.callees, o.cancelled), k, o.spawned),
       callers := Answering(s.callers, o.answered))
  }

  /** The loop still holds the sending end of the procedure's command channel. */
  predicate SenderAlive(s: System, i: nat)
    requires i < |s.callees|
  {
    var callee := s.callees[i];
    && callee.client in s.loops && s.loops[callee.client].running
    && callee.context in s.loops[callee.client].state.runningRpcCalls
    && s.loops[callee.client].state.runningRpcCalls[callee.context] == i
  }

  function Polled(s: System, i: nat): C.Poll
    requires i < |s.callees|
  {
    if s.callees[i].cancels > 0 then C.CancelCommand
    else if SenderAlive(s, i) then C.Empty
    else C.Disconnected
  }

  function CalleeEvent(s: System, i: nat, op: C.Op): C.Event
    requires i < |s.callees|
  {
    C.Event(op, Polled(s, i), s.callees[i].client in s.loops && s.loops[s.callees[i].client].running)
  }

  function CalleeActed(s: System, i: nat, op: C.Op): System
    requires i < |s.callees|
  {
    var callee := s.callees[i];
    var e := CalleeEvent(s, i, op);
    var s' := s.(callees := s.callees[i :=
                   callee.(state := C.StateAfter(callee.state, e),
                           cancels := if callee.cancels > 0 then callee.cancels - 1 else 0)]);
    match C.Emission(callee.state, e)
    case Some(kind) =>
      s'.(loopQueue := s.loopQueue
            + [LoopItem(callee.client, L.Send(Message.RpcResponse(Response(callee.context, kind))))],
          log := s.log + [LogEntry(callee.context, Emission(i, kind))])
    case None => s'
  }

  function Enqueued(s: System, k: ClientId, command: L.Command<string>): System {
    s.(loopQueue := s.loopQueue + [LoopItem(k, command)])
  }

  function AppCalled(s: System, k: ClientId, call: Call): System {
    Enqueued(s, k, L.OutgoingCall(call.context, call.context, Message.RpcCall(call)))
      .(callers := s.callers[call.context := Caller(k, [])])
  }

  function ServerTurned(s: System, o: S.Outcome): System
    requires s.inbox != []
  {
    s.(server := o.state, serverUp := o.spin.Continue?, inbox := s.inbox[1..] + o.enqueued, bridge := s.bridge + o.sent)
  }

  /** A context identifier is new with every call; a client identifier has a new serial. */
  ghost predicate Next(s: System, step: Step, s': System) {
    match step
    case Connect(k) => s.nextSerial <= k.serial && s' == Connected(s, k)
    case HangUp(k) => k in s.live && s' == HungUp(s, k)
    case BridgeSends => s.bridge != [] && s' == BridgeSent(s)
    case DownArrives(i) => FirstSent(s.down, i) && s' == DownArrived(s, i)
    case UpArrives(i) => FirstUp(s.up, i) && s' == UpArrived(s, i)
    case LoopTurns(i) =>
      && FirstItem(s.loopQueue, i)
      && s.loopQueue[i].client in s.loops && s.loops[s.loopQueue[i].client].running
      && s' == LoopTurned(s, i)
    case ServerTurns =>
      s.serverUp && s.inbox != [] && exists o :: S.Handles(s.server, s.inbox[0], o) && s' == ServerTurned(s, o)
    case CalleeActs(i, op) => i < |s.callees| && s' == CalleeActed(s, i, op)
    case AppCalls(k, call) => k in s.loops && call.context !in s.callers && s' == AppCalled(s, k, call)
    case AppCancels(context) =>
      context in s.callers && s' == Enqueued(s, s.callers[context].client, L.CancelOutgoingRpc(context))
    case AppRegisters(k, name) => k in s.loops && s' == Enqueued(s, k, L.NewRpc(name))
    case AppQuits(k) => k in s.loops && s' == Enqueued(s, k, L.Quit)
  }

  /** The states a run goes through: each step leads from one to the next. */
  ghost predicate Trace(states: seq<System>, steps: seq<Step>) {
    && |states| == |steps| + 1 && states[0] == INITIAL_SYSTEM
    && forall i {:trigger steps[i]} :: 0 <= i < |steps| ==> Next(states[i], steps[i], states[i + 1])
  }

  /** `s` can be reached by taking `steps` from the initial system. */
  ghost predicate Reaches(steps: seq<Step>, s: System) {
    exists states :: Trace(states, steps) && states[|steps|] == s
  }

  lemma ReachesLast(steps: seq<Step>, s: System) returns (s0: System)
    requires Reaches(steps, s) && steps != []
    ensures Reaches(DropLast(steps), s0) && Next(s0, LastOf(steps), s)
  {
    hide Next;
    var states :| Trace(states, steps) && states[|steps|] == s;
    s0 := states[|steps| - 1];
    var last := steps[|steps| - 1];
    assert Next(states[|steps| - 1], last, states[|steps| - 1 + 1]);
    forall i {:trigger DropLast(steps)[i]} | 0 <= i < |steps| - 1
      ensures Next(DropLast(states)[i], DropLast(steps)[i], DropLast(states)[i + 1])
    {
      var step := steps[i];
      assert Next(states[i], step, states[i + 1]);
    }
    assert Trace(DropLast(states), DropLast(steps));
  }

  ghost predicate Reached(s: System) { exists steps :: Reaches(steps, s) }

  lemma ReachedAtStart()
    ensures Reached(INITIAL_SYSTEM)
  {
    hide Next;
    assert Trace([INITIAL_SYSTEM], []);
    assert Reaches([], INITIAL_SYSTEM);
  }

  lemma ReachedNext(s: System, step: Step, s': System)
    requires Reached(s) && Next(s, step, s')
    ensures Reached(s')
  {
    hide Next;
    var steps :| Reaches(steps, s);
    var states :| Trace(states, steps) && states[|steps|] == s;
    var steps', states' := steps + [step], states + [s'];
    forall i {:trigger steps'[i]} | 0 <= i < |steps'| ensures Next(states'[i], steps'[i], states'[i + 1]) {
      if i < |steps| {
        var earlier := steps[i];
        assert Next(states[i], earlier, states[i + 1]);
      }
    }
    assert Trace(states', steps') && states'[|steps'|] == s';
    assert Reaches(steps', s');
  }
}
