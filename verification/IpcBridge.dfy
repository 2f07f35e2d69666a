/**
 The event loop of src/server/ipc_bridge.rs with its connections, its oneshot registrations, the jobs
 in its thread pool and the commands sent to it and by it, as a step machine. A write job holds the
 writer's lock from its first byte to its last message, so it is one step; a read job is seen when it
 ends. Errors of sockets, which panic a job, and `Quit` are not part of the machine.
 */
module IpcBridge {
  import opened Rpc
  import opened Sequences
  import opened Ipc
  import S = Swiboe

  /** A reader is known by the client whose socket it reads. */
  type ReaderOf = ClientId

  datatype Reader = Taken | Held(owner: ReaderOf)

  datatype Connection = Connection(clientId: ClientId, reader: Reader, armedForReading: bool, armedForWriting: bool)

  datatype Command =
    | SendData(receiver: ClientId, message: Message)
    | ReRegisterForReading(token: nat, reader: ReaderOf)
    | ReRegisterForWriting(token: nat)

  datatype WriteJob = WriteJob(token: nat, clientId: ClientId)

  datatype ReadJob = ReadJob(token: nat, clientId: ClientId, reader: ReaderOf)

  /** `pending` and `written` are what a client's writer still has and what its socket has taken;
      `handled` and `accepted` are histories: every `SendData` handled, and every message queued on a
      connection, under the identity of that connection. */
  datatype Bridge = Bridge(
    connections: map<nat, Connection>,
    nextSerial: nat,
    pending: map<ClientId, Bytes>,
    written: map<ClientId, Bytes>,
    queue: seq<Command>,
    writeJobs: seq<WriteJob>,
    readJobs: seq<ReadJob>,
    toServer: seq<S.Command>,
    handled: seq<Rpc.SendData>,
    accepted: seq<Rpc.SendData>)

  const NEW_BRIDGE := Bridge(map[], 1, map[], map[], [], [], [], [], [], [])

  function BytesOf(bytes: map<ClientId, Bytes>, id: ClientId): Bytes {
    if id in bytes then bytes[id] else []
  }

  // ---------- What the handler does ----------

  /** `new_client`, the slab having chosen a free token. */
  function NewClient(b: Bridge, token: nat): Bridge {
    var id := ClientId(b.nextSerial, token);
    b.(nextSerial := b.nextSerial + 1,
       connections := b.connections[token := Connection(id, Held(id), true, true)],
       toServer := b.toServer + [S.ClientConnected(id)])
  }

  function ArmedForWriting(connections: map<nat, Connection>, token: nat): map<nat, Connection> {
    if token in connections
    then connections[token := connections[token].(armedForWriting := true)]
    else connections
  }

  function Notify(b: Bridge, command: Command, serialize: Message -> Bytes): Bridge {
    match command
    case SendData(receiver, message) =>
      var handled := b.handled + [Rpc.SendData(receiver, message)];
      if receiver.token in b.connections && b.connections[receiver.token].clientId == receiver then
        b.(pending := b.pending[receiver := BytesOf(b.pending, receiver) + Frame(serialize(message))],
           connections := ArmedForWriting(b.connections, receiver.token),
           handled := handled,
           accepted := b.accepted + [Rpc.SendData(b.connections[receiver.token].clientId, message)])
      else
        b.(toServer := b.toServer + [S.SendDataFailed(receiver, message)], handled := handled)
    case ReRegisterForReading(token, reader) =>
      if token in b.connections then
        b.(connections := b.connections[token := b.connections[token].(reader := Held(reader),
            armedForReading := true)])
      else b
    case ReRegisterForWriting(token) => b.(connections := ArmedForWriting(b.connections, token))
  }

  function ReadyToRead(b: Bridge, token: nat): Bridge
    requires token in b.connections && b.connections[token].reader.Held?
  {
    var c := b.connections[token];
    b.(connections := b.connections[token := c.(reader := Taken, armedForReading := false)],
       readJobs := b.readJobs + [ReadJob(token, c.clientId, c.reader.owner)])
  }

  function ReadyToWrite(b: Bridge, token: nat): Bridge
    requires token in b.connections
  {
    var c := b.connections[token];
    b.(connections := b.connections[token := c.(armedForWriting := false)],
       writeJobs := b.writeJobs + [WriteJob(token, c.clientId)])
  }

  function HungUp(b: Bridge, token: nat): Bridge
    requires token in b.connections
  {
    b.(connections := b.connections - {token},
       toServer := b.toServer + [S.ClientDisconnected(b.connections[token].clientId)])
  }

  /** `ready` for a client's token. An event comes only for what is armed, and disarms it. */
  function Ready(b: Bridge, token: nat, readable: bool, writable: bool, hup: bool): Bridge
    requires CanBeReady(b, token, readable, writable)
  {
    if token !in b.connections then b
    else
      var b1 := if readable then ReadyToRead(b, token) else b;
      var b2 := if writable then ReadyToWrite(b1, token) else b1;
      if hup then HungUp(b2, token) else b2
  }

  predicate CanBeReady(b: Bridge, token: nat, readable: bool, writable: bool) {
    token in b.connections ==>
      && (readable ==> b.connections[token].armedForReading && b.connections[token].reader.Held?)
      && (writable ==> b.connections[token].armedForWriting)
  }

  // ---------- The machine ----------

  datatype Step =
    | Connects(token: nat)
    | Notifies
    | Readies(token: nat, readable: bool, writable: bool, hup: bool)
    | Writes(job: nat, pending: Bytes, written: Bytes)
    | ReadEnds(job: nat, messages: seq<Message>)
    | ServerSends(receiver: ClientId, message: Message)

  function AsCommand(id: ClientId, message: Message): S.Command {
    match message
    case RpcCall(call) => S.RpcCall(id, call)
    case RpcResponse(response) => S.RpcResponse(response)
    case RpcCancel(context) => S.RpcCancel(context)
  }

  function AsCommands(id: ClientId, messages: seq<Message>): seq<S.Command> {
    seq(|messages|, i requires 0 <= i < |messages| => AsCommand(id, messages[i]))
  }

  /** A write job: `try_write`, and a request to be armed again if bytes are left. */
  function Wrote(b: Bridge, job: nat, pending: Bytes, written: Bytes): Bridge
    requires job < |b.writeJobs|
  {
    var id := b.writeJobs[job].clientId;
    b.(writeJobs := Remove(b.writeJobs, job),
       pending := b.pending[id := pending],
       written := b.written[id := written],
       queue := if pending == [] then b.queue else b.queue + [ReRegisterForWriting(b.writeJobs[job].token)])
  }

  function ReadEnded(b: Bridge, job: nat, messages: seq<Message>): Bridge
    requires job < |b.readJobs|
  {
    var j := b.readJobs[job];
    b.(readJobs := Remove(b.readJobs, job),
       toServer := b.toServer + AsCommands(j.clientId, messages),
       queue := b.queue + [ReRegisterForReading(j.token, j.reader)])
  }

  ghost predicate Next(b: Bridge, step: Step, b': Bridge, serialize: Message -> Bytes) {
    match step
    case Connects(token) => token !in b.connections && b' == NewClient(b, token)
    case Notifies => b.queue != [] && b' == Notify(b.(queue := b.queue[1..]), b.queue[0], serialize)
    case Readies(token, readable, writable, hup) =>
      CanBeReady(b, token, readable, writable) && b' == Ready(b, token, readable, writable, hup)
    case Writes(job, pending, written) =>
      && job < |b.writeJobs|
      && WriteMoves(BytesOf(b.pending, b.writeJobs[job].clientId), BytesOf(b.written, b.writeJobs[job].clientId),
          pending, written)
      && b' == Wrote(b, job, pending, written)
    case ReadEnds(job, messages) => job < |b.readJobs| && b' == ReadEnded(b, job, messages)
    case ServerSends(receiver, message) =>
      // the server knows a client by the identity it was told, so the serial has been given out
      receiver.serial < b.nextSerial && b' == b.(queue := b.queue + [Command.SendData(receiver, message)])
  }

  /** The states a run goes through: each step leads from one to the next. */
  ghost predicate Trace(states: seq<Bridge>, steps: seq<Step>, serialize: Message -> Bytes) {
    && |states| == |steps| + 1 && states[0] == NEW_BRIDGE
    && forall i {:trigger steps[i]} :: 0 <= i < |steps| ==> Next(states[i], steps[i], states[i + 1], serialize)
  }

  /** A run of `steps` from the start leads to `b`. */
  ghost predicate Leads(steps: seq<Step>, b: Bridge, serialize: Message -> Bytes) {
    exists states :: Trace(states, steps, serialize) && states[|steps|] == b
  }

  lemma LeadsLast(steps: seq<Step>, b: Bridge, serialize: Message -> Bytes) returns (b0: Bridge)
    requires Leads(steps, b, serialize) && steps != []
    ensures Leads(DropLast(steps), b0, serialize) && Next(b0, LastOf(steps), b, serialize)
  {
    hide Next;
    var states :| Trace(states, steps, serialize) && states[|steps|] == b;
    b0 := states[|steps| - 1];
    var last := steps[|steps| - 1];
    assert Next(states[|steps| - 1], last, states[|steps| - 1 + 1], serialize);
    forall i {:trigger DropLast(steps)[i]} | 0 <= i < |steps| - 1
      ensures Next(DropLast(states)[i], DropLast(steps)[i], DropLast(states)[i + 1], serialize)
    {
      var step := steps[i];
      assert Next(states[i], step, states[i + 1], serialize);
    }
    assert Trace(DropLast(states), DropLast(steps), serialize);
  }

  // ---------- Identities ----------

  ghost predicate Identified(b: Bridge) {
    && (forall t :: t in b.connections ==>
          b.connections[t].clientId.token == t && b.connections[t].clientId.serial < b.nextSerial)
    && (forall i :: 0 <= i < |b.writeJobs| ==> b.writeJobs[i].clientId.token == b.writeJobs[i].token)
    && (forall i :: 0 <= i < |b.queue| && b.queue[i].SendData? ==> b.queue[i].receiver.serial < b.nextSerial)
  }

  ghost predicate Live(b: Bridge, id: ClientId) {
    id.token in b.connections && b.connections[id.token].clientId == id
  }

  /** A connection has its reader exactly when it is armed for reading, so that taking it does not fail. */
  ghost predicate ReadersThere(b: Bridge) {
    forall t :: t in b.connections ==> (b.connections[t].armedForReading <==> b.connections[t].reader.Held?)
  }

  lemma NextKeepsIdentified(b: Bridge, step: Step, b': Bridge, serialize: Message -> Bytes)
    requires Identified(b) && ReadersThere(b) && Next(b, step, b', serialize)
    ensures Identified(b') && ReadersThere(b')
  {
    hide WriteMoves, AsCommands, Ready, Notify;
    match step
    case Readies(token, readable, writable, hup) => ReadyKeepsIdentified(b, token, readable, writable, hup);
    case Notifies => NotifyKeepsIdentified(b.(queue := b.queue[1..]), b.queue[0], serialize);
    case Connects(_) =>
    case _ => hide NewClient;
  }

  lemma NotifyKeepsIdentified(b: Bridge, command: Command, serialize: Message -> Bytes)
    requires Identified(b) && ReadersThere(b)
    ensures Identified(Notify(b, command, serialize)) && ReadersThere(Notify(b, command, serialize))
  {
    hide Frame;
  }

  lemma ReadyKeepsIdentified(b: Bridge, token: nat, readable: bool, writable: bool, hup: bool)
    requires Identified(b) && ReadersThere(b) && CanBeReady(b, token, readable, writable)
    ensures Identified(Ready(b, token, readable, writable, hup)) && ReadersThere(Ready(b, token, readable,
        writable, hup))
  {
  }

  // ---------- No lost wakeup ----------

  /** Something will see to the bytes that a live connection still has to write. */
  ghost predicate Wakeful(b: Bridge) {
    forall t :: t in b.connections && BytesOf(b.pending, b.connections[t].clientId) != [] ==>
      || b.connections[t].armedForWriting
      || WriteJob(t, b.connections[t].clientId) in b.writeJobs
      || ReRegisterForWriting(t) in b.queue
  }

  lemma NotifyKeepsWakeful(b: Bridge, serialize: Message -> Bytes)
    requires Identified(b) && Wakeful(b) && b.queue != []
    ensures Wakeful(Notify(b.(queue := b.queue[1..]), b.queue[0], serialize))
  {
    hide Frame;
    assert forall c :: c in b.queue ==> c == b.queue[0] || c in b.queue[1..];
  }

  lemma WroteKeepsWakeful(b: Bridge, job: nat, pending: Bytes, written: Bytes)
    requires Identified(b) && Wakeful(b) && job < |b.writeJobs|
    ensures Wakeful(Wrote(b, job, pending, written))
  {
    var b' := Wrote(b, job, pending, written);
    forall j | j in b.writeJobs && j != b.writeJobs[job] ensures j in b'.writeJobs {
      var i :| 0 <= i < |b.writeJobs| && b.writeJobs[i] == j;
      assert b'.writeJobs[if i < job then i else i - 1] == j;
    }
  }

  lemma NextKeepsWakeful(b: Bridge, step: Step, b': Bridge, serialize: Message -> Bytes)
    requires Identified(b) && Wakeful(b) && Next(b, step, b', serialize)
    ensures Wakeful(b')
  {
    hide Frame, WriteMoves, AsCommands, Notify, Wrote;
    match step
    case Notifies => NotifyKeepsWakeful(b, serialize);
    case Writes(job, pending, written) => WroteKeepsWakeful(b, job, pending, written);
    case _ =>
  }

  lemma {:induction false} BridgeInv(steps: seq<Step>, b: Bridge, serialize: Message -> Bytes)
    requires Leads(steps, b, serialize)
    ensures Identified(b) && ReadersThere(b) && Wakeful(b)
    decreases |steps|
  {
    if steps != [] {
      var b0 := LeadsLast(steps, b, serialize);
      BridgeInv(DropLast(steps), b0, serialize);
      hide Identified, ReadersThere, Wakeful, Next;
      NextKeepsIdentified(b0, LastOf(steps), b, serialize);
      NextKeepsWakeful(b0, LastOf(steps), b, serialize);
    }
  }

  /** In every run, a live connection whose writer has bytes left is armed for writing, or has a write
      job waiting, or a command to arm it again is on its way; and its reader is there exactly when it is
      armed for reading. */
  lemma NoLostWakeup(steps: seq<Step>, b: Bridge, serialize: Message -> Bytes, t: nat)
    requires Leads(steps, b, serialize) && t in b.connections
    ensures BytesOf(b.pending, b.connections[t].clientId) != [] ==>
              || b.connections[t].armedForWriting
              || WriteJob(t, b.connections[t].clientId) in b.writeJobs
              || ReRegisterForWriting(t) in b.queue
    ensures b.connections[t].armedForReading <==> b.connections[t].reader.Held?
  {
    BridgeInv(steps, b, serialize);
  }

  // ---------- One event for one arming ----------

  ghost predicate ArmsReading(b: Bridge, step: Step, t: nat) {
    || step == Connects(t)
    || (step.Notifies? && b.queue != [] && b.queue[0].ReRegisterForReading? && b.queue[0].token == t)
  }

  ghost predicate ArmsWriting(b: Bridge, step: Step, t: nat) {
    || step == Connects(t)
    || (step.Notifies? && b.queue != []
        && (b.queue[0] == ReRegisterForWriting(t) || (b.queue[0].SendData? && b.queue[0].receiver.token == t)))
  }

  predicate Armed(b: Bridge, t: nat, writing: bool) {
    t in b.connections && if writing then b.connections[t].armedForWriting else b.connections[t].armedForReading
  }

  ghost predicate Arms(b: Bridge, step: Step, t: nat, writing: bool) {
    if writing then ArmsWriting(b, step, t) else ArmsReading(b, step, t)
  }

  lemma NotifyStaysDisarmed(b: Bridge, b': Bridge, serialize: Message -> Bytes, t: nat, writing: bool)
    requires Next(b, Notifies, b', serialize) && !Armed(b, t, writing) && !Arms(b, Notifies, t, writing)
    ensures !Armed(b', t, writing)
  {
    hide Frame, BytesOf;
  }

  lemma StaysDisarmed(b: Bridge, step: Step, b': Bridge, serialize: Message -> Bytes, t: nat, writing: bool)
    requires Next(b, step, b', serialize) && !Armed(b, t, writing) && !Arms(b, step, t, writing)
    ensures !Armed(b', t, writing)
  {
    hide Frame, BytesOf, WriteMoves, AsCommands, Remove;
    match step
    case Notifies =>
      hide Notify;
      NotifyStaysDisarmed(b, b', serialize, t, writing);
    case Readies(token, readable, writable, hup) =>
      hide Arms;
    case _ => hide Notify, Ready;
  }

  /** An event of one kind for a token with a connection. */
  predicate Happens(b: Bridge, step: Step, t: nat, writing: bool) {
    step.Readies? && step.token == t && t in b.connections && if writing then step.writable else step.readable
  }

  lemma EventDisarms(b: Bridge, step: Step, b': Bridge, serialize: Message -> Bytes, t: nat, writing: bool)
    requires Next(b, step, b', serialize) && Happens(b, step, t, writing)
    ensures Armed(b, t, writing) && !Armed(b', t, writing)
  {
  }

  lemma TraceNext(states: seq<Bridge>, steps: seq<Step>, serialize: Message -> Bytes, i: nat)
    requires Trace(states, steps, serialize) && i < |steps|
    ensures Next(states[i], steps[i], states[i + 1], serialize)
  {
    hide Next;
    var step := steps[i];
  }

  lemma {:induction false} DisarmedSince(states: seq<Bridge>, steps: seq<Step>, serialize: Message -> Bytes,
                                         i: nat, j: nat, t: nat, writing: bool)
    requires Trace(states, steps, serialize) && i < j <= |steps| && Happens(states[i], steps[i], t, writing)
    requires forall m :: i < m < j ==> !Arms(states[m], steps[m], t, writing)
    ensures !Armed(states[j], t, writing)
    decreases j
  {
    hide Next, Armed, Happens, Arms;
    TraceNext(states, steps, serialize, j - 1);
    if i + 1 == j {
      EventDisarms(states[i], steps[i], states[j], serialize, t, writing);
    } else {
      DisarmedSince(states, steps, serialize, i, j - 1, t, writing);
      StaysDisarmed(states[j - 1], steps[j - 1], states[j], serialize, t, writing);
    }
  }

  /** Between two events of a kind for one token, in any run, something has armed it for that kind again: a
      connection to it, a reader that came back or, for writing, a message queued or a request of a job. */
  lemma OneEventPerArming(states: seq<Bridge>, steps: seq<Step>, serialize: Message -> Bytes, i: nat, j: nat, t: nat,
                          writing: bool)
    requires Trace(states, steps, serialize) && i < j < |steps|
    requires Happens(states[i], steps[i], t, writing) && Happens(states[j], steps[j], t, writing)
    ensures exists m :: i < m < j && Arms(states[m], steps[m], t, writing)
  {
    hide Next, Armed, Happens, Arms;
    TraceNext(states, steps, serialize, j);
    EventDisarms(states[j], steps[j], states[j + 1], serialize, t, writing);
    if forall m :: i < m < j ==> !Arms(states[m], steps[m], t, writing) {
      DisarmedSince(states, steps, serialize, i, j, t, writing);
    }
  }

  // ---------- No misdelivery ----------

  function For(id: ClientId): Rpc.SendData -> seq<Rpc.SendData> {
    (m: Rpc.SendData) => if m.receiver == id then [m] else []
  }

  /** The messages for one client, in order. */
  function To(sent: seq<Rpc.SendData>, id: ClientId): seq<Rpc.SendData> {
    FlatMap(sent, For(id))
  }

  function FailureFor(id: ClientId): S.Command -> seq<Rpc.SendData> {
    (c: S.Command) => if c.SendDataFailed? && c.clientId == id then [Rpc.SendData(id, c.message)] else []
  }

  /** The messages for one client that came back to the server as failed, in order. */
  function FailedTo(toServer: seq<S.Command>, id: ClientId): seq<Rpc.SendData> {
    FlatMap(toServer, FailureFor(id))
  }

  function FrameFor(id: ClientId, serialize: Message -> Bytes): Rpc.SendData -> Bytes {
    (m: Rpc.SendData) => if m.receiver == id then Frame(serialize(m.message)) else []
  }

  function FramesTo(sent: seq<Rpc.SendData>, id: ClientId, serialize: Message -> Bytes): Bytes {
    FlatMap(sent, FrameFor(id, serialize))
  }

  ghost predicate Delivers(b: Bridge, id: ClientId, serialize: Message -> Bytes) {
    && BytesOf(b.written, id) + BytesOf(b.pending, id) == FramesTo(b.accepted, id, serialize)
    && To(b.handled, id) == To(b.accepted, id) + FailedTo(b.toServer, id)
    && (FailedTo(b.toServer, id) != [] ==> id.serial < b.nextSerial && !Live(b, id))
  }

  function AsSent(step: Step): seq<Rpc.SendData> {
    match step
    case ServerSends(receiver, message) => [Rpc.SendData(receiver, message)]
    case _ => []
  }

  function AsQueued(command: Command): seq<Rpc.SendData> {
    match command
    case SendData(receiver, message) => [Rpc.SendData(receiver, message)]
    case _ => []
  }

  /** The messages that are still to be handled. */
  function StillQueued(queue: seq<Command>): seq<Rpc.SendData> { FlatMap(queue, AsQueued) }

  lemma QueueKept(b: Bridge, step: Step, b': Bridge, serialize: Message -> Bytes)
    requires Next(b, step, b', serialize)
    ensures b'.handled + StillQueued(b'.queue) == (b.handled + StillQueued(b.queue)) + AsSent(step)
  {
    hide Frame, BytesOf, WriteMoves, AsCommands, Remove, FlatMap;
    assert (b.handled + StillQueued(b.queue)) + [] == b.handled + StillQueued(b.queue);
    match step
    case Notifies =>
      FirstQueued(b.queue);
      assert b.handled + (AsQueued(b.queue[0]) + StillQueued(b.queue[1..]))
          == (b.handled + AsQueued(b.queue[0])) + StillQueued(b.queue[1..]);
      assert b'.queue == b.queue[1..] && b'.handled == b.handled + AsQueued(b.queue[0]);
    case Writes(job, _, _) => MoreQueued(b.queue, ReRegisterForWriting(b.writeJobs[job].token));
    case ReadEnds(job, _) => MoreQueued(b.queue, ReRegisterForReading(b.readJobs[job].token, b.readJobs[job].reader));
    case ServerSends(receiver, message) =>
      MoreQueued(b.queue, Command.SendData(receiver, message));
      Assoc(b.handled, StillQueued(b.queue), [Rpc.SendData(receiver, message)]);
    case _ =>
  }

  lemma FirstQueued(queue: seq<Command>)
    requires queue != []
    ensures StillQueued(queue) == AsQueued(queue[0]) + StillQueued(queue[1..])
  {
  }

  lemma MoreQueued(queue: seq<Command>, command: Command)
    ensures StillQueued(queue + [command]) == StillQueued(queue) + AsQueued(command)
    ensures AsQueued(command) == [] ==> StillQueued(queue + [command]) == StillQueued(queue)
  {
    FlatMapAppend(queue, command, AsQueued);
  }

  /** In every run the messages the bridge has handled, and then those in its queue, are just those the server
      has sent, in order. */
  lemma {:induction false} NothingSkipped(steps: seq<Step>, b: Bridge, serialize: Message -> Bytes)
    requires Leads(steps, b, serialize)
    ensures b.handled + StillQueued(b.queue) == FlatMap(steps, AsSent)
    decreases |steps|
  {
    hide Next, FlatMap;
    if steps == [] {
      NothingSent();
      assert b == NEW_BRIDGE;
    } else {
      var b0 := LeadsLast(steps, b, serialize);
      NothingSkipped(DropLast(steps), b0, serialize);
      QueueKept(b0, LastOf(steps), b, serialize);
      FlatMapAppend(DropLast(steps), LastOf(steps), AsSent);
      assert steps == DropLast(steps) + [LastOf(steps)];
    }
  }

  lemma NothingSent()
    ensures FlatMap<Step, Rpc.SendData>([], AsSent) == [] && StillQueued([]) == []
  {
  }

  lemma NoFailures(toServer: seq<S.Command>, more: seq<S.Command>, id: ClientId)
    requires forall i :: 0 <= i < |more| ==> !more[i].SendDataFailed?
    ensures FailedTo(toServer + more, id) == FailedTo(toServer, id)
  {
    FlatMapConcat(toServer, more, FailureFor(id));
    FlatMapNone(more, FailureFor(id));
  }

  lemma ConnectsDelivers(b: Bridge, token: nat, id: ClientId, serialize: Message -> Bytes)
    requires Identified(b) && Delivers(b, id, serialize) && token !in b.connections
    ensures Delivers(NewClient(b, token), id, serialize)
  {
    NoFailures(b.toServer, [S.ClientConnected(ClientId(b.nextSerial, token))], id);
  }

  lemma ReadiesDelivers(b: Bridge, token: nat, readable: bool, writable: bool, hup: bool, id: ClientId,
      serialize: Message -> Bytes)
    requires Identified(b) && Delivers(b, id, serialize) && CanBeReady(b, token, readable, writable)
    ensures Delivers(Ready(b, token, readable, writable, hup), id, serialize)
  {
    hide FramesTo, To, FailedTo;
    if token in b.connections {
      NoFailures(b.toServer, [S.ClientDisconnected(b.connections[token].clientId)], id);
    }
  }

  lemma ReadEndsDelivers(b: Bridge, job: nat, messages: seq<Message>, id: ClientId, serialize: Message -> Bytes)
    requires Delivers(b, id, serialize) && job < |b.readJobs|
    ensures Delivers(ReadEnded(b, job, messages), id, serialize)
  {
    NoFailures(b.toServer, AsCommands(b.readJobs[job].clientId, messages), id);
  }

  lemma WritesDelivers(b: Bridge, job: nat, pending: Bytes, written: Bytes, id: ClientId, serialize: Message -> Bytes)
    requires Delivers(b, id, serialize) && job < |b.writeJobs|
    requires WriteMoves(BytesOf(b.pending, b.writeJobs[job].clientId), BytesOf(b.written,
        b.writeJobs[job].clientId), pending, written)
    ensures Delivers(Wrote(b, job, pending, written), id, serialize)
  {
    hide FramesTo, To, FailedTo;
    if b.writeJobs[job].clientId == id {
      var p, w, n := BytesOf(b.pending, id), BytesOf(b.written, id), |BytesOf(b.pending, id)| - |pending|;
      assert (w + p[..n]) + p[n..] == w + p;
    }
  }

  lemma SendDataDelivers(b: Bridge, receiver: ClientId, message: Message, id: ClientId, serialize: Message -> Bytes)
    requires Identified(b) && Delivers(b, id, serialize) && receiver.serial < b.nextSerial
    ensures Delivers(Notify(b, Command.SendData(receiver, message), serialize), id, serialize)
  {
    if Live(b, receiver) {
      AcceptDelivers(b, receiver, message, id, serialize);
    } else {
      FailDelivers(b, receiver, message, id, serialize);
    }
  }

  lemma AcceptDelivers(b: Bridge, receiver: ClientId, message: Message, id: ClientId, serialize: Message -> Bytes)
    requires Delivers(b, id, serialize) && Live(b, receiver)
    ensures Delivers(Notify(b, Command.SendData(receiver, message), serialize), id, serialize)
  {
    var m, f := Rpc.SendData(receiver, message), Frame(serialize(message));
    FlatMapAppend(b.handled, m, For(id));
    FlatMapAppend(b.accepted, m, For(id));
    FlatMapAppend(b.accepted, m, FrameFor(id, serialize));
    hide Frame, FlatMap;
    if receiver == id {
      Assoc(BytesOf(b.written, id), BytesOf(b.pending, id), f);
      assert FailedTo(b.toServer, id) == [];
      Unpadded(To(b.accepted, id), m);
    }
  }

  lemma FailDelivers(b: Bridge, receiver: ClientId, message: Message, id: ClientId, serialize: Message -> Bytes)
    requires Delivers(b, id, serialize) && !Live(b, receiver) && receiver.serial < b.nextSerial
    ensures Delivers(Notify(b, Command.SendData(receiver, message), serialize), id, serialize)
  {
    var m := Rpc.SendData(receiver, message);
    FlatMapAppend(b.handled, m, For(id));
    FlatMapAppend(b.toServer, S.SendDataFailed(receiver, message), FailureFor(id));
    hide FlatMap;
    if receiver == id {
      Assoc(To(b.accepted, id), FailedTo(b.toServer, id), [m]);
    }
  }

  lemma Unpadded<T>(a: seq<T>, x: T)
    ensures (a + []) + [x] == (a + [x]) + []
  {
  }

  lemma NextDelivers(b: Bridge, step: Step, b': Bridge, id: ClientId, serialize: Message -> Bytes)
    requires Identified(b) && Delivers(b, id, serialize) && Next(b, step, b', serialize)
    ensures Delivers(b', id, serialize)
  {
    match step
    case Connects(token) => ConnectsDelivers(b, token, id, serialize);
    case Notifies => NotifiesDelivers(b, id, serialize);
    case Readies(token, readable, writable, hup) => ReadiesDelivers(b, token, readable, writable, hup, id, serialize);
    case Writes(job, pending, written) => WritesDelivers(b, job, pending, written, id, serialize);
    case ReadEnds(job, messages) => ReadEndsDelivers(b, job, messages, id, serialize);
    case ServerSends(_, _) =>
  }

  lemma NotifiesDelivers(b: Bridge, id: ClientId, serialize: Message -> Bytes)
    requires Identified(b) && Delivers(b, id, serialize) && b.queue != []
    ensures Delivers(Notify(b.(queue := b.queue[1..]), b.queue[0], serialize), id, serialize)
  {
    hide FramesTo, To, FailedTo;
    match b.queue[0]
    case SendData(receiver, message) =>
      assert Identified(b.(queue := b.queue[1..]));
      SendDataDelivers(b.(queue := b.queue[1..]), receiver, message, id, serialize);
    case ReRegisterForReading(_, _) =>
    case ReRegisterForWriting(_) =>
  }

  /**
   Serials are never given out twice, so no reuse of tokens misdelivers a message. In every run, and
   for every client: the messages addressed to it that the bridge has handled are, in order, those
   queued on that client's own connection and then those given back to the server as failed; and
   the bytes on its socket and in its writer are just the frames of the former.
   */
  lemma {:induction false} NoMisdelivery(steps: seq<Step>, b: Bridge, id: ClientId, serialize: Message -> Bytes)
    requires Leads(steps, b, serialize)
    ensures To(b.handled, id) == To(b.accepted, id) + FailedTo(b.toServer, id)
    ensures BytesOf(b.written, id) + BytesOf(b.pending, id) == FramesTo(b.accepted, id, serialize)
    ensures FailedTo(b.toServer, id) != [] ==> !Live(b, id)
  {
    AlwaysDelivers(steps, b, id, serialize);
  }

  lemma {:induction false} AlwaysDelivers(steps: seq<Step>, b: Bridge, id: ClientId, serialize: Message -> Bytes)
    requires Leads(steps, b, serialize)
    ensures Delivers(b, id, serialize)
    decreases |steps|
  {
    if steps != [] {
      var b0 := LeadsLast(steps, b, serialize);
      AlwaysDelivers(DropLast(steps), b0, id, serialize);
      BridgeInv(DropLast(steps), b0, serialize);
      hide Delivers, Identified;
      NextDelivers(b0, LastOf(steps), b, id, serialize);
    }
  }

  // ---------- Readers and reused tokens ----------

  ghost predicate Reads(b: Bridge, t: nat, r: ReaderOf) {
    || ReRegisterForReading(t, r) in b.queue
    || exists j :: j in b.readJobs && j.token == t && j.reader == r
  }

  /** A read job for the token is running, or its reader is on the way back. */
  ghost predicate Outstanding(b: Bridge, t: nat) { exists r :: Reads(b, t, r) }

  ghost predicate ReadersKnown(b: Bridge) {
    && (forall t :: t in b.connections && b.connections[t].reader.Held? ==>
        b.connections[t].reader.owner.serial < b.nextSerial)
    && (forall t, r :: Reads(b, t, r) ==> r.serial < b.nextSerial)
  }

  /** Every connection holds its own client's reader, and will get back no other. */
  ghost predicate OwnReaders(b: Bridge) {
    forall t :: t in b.connections ==>
      && (b.connections[t].reader.Held? ==> b.connections[t].reader.owner == b.connections[t].clientId)
      && (forall r :: Reads(b, t, r) ==> r == b.connections[t].clientId)
  }

  /** A step lets through no reader that was not on its way, except one just taken from a connection. */
  lemma ReadsStep(b: Bridge, step: Step, b': Bridge, serialize: Message -> Bytes, t: nat, r: ReaderOf)
    requires Next(b, step, b', serialize) && Reads(b', t, r)
    ensures Reads(b, t, r) || TakenFrom(b, step, t, r)
  {
    hide Frame, WriteMoves, AsCommands, BytesOf;
    match step
    case Notifies => NotifyReads(b, serialize, t, r);
    case ReadEnds(job, messages) =>
      hide Remove;
      EndedReads(b, job, messages, t, r);
    case Readies(token, readable, writable, hup) =>
    case _ =>
  }

  /** The step takes reader `r` from the connection at token `t`. */
  ghost predicate TakenFrom(b: Bridge, step: Step, t: nat, r: ReaderOf) {
    t in b.connections && b.connections[t].reader == Held(r) && step.Readies? && step.token == t
  }

  lemma NotifyReads(b: Bridge, serialize: Message -> Bytes, t: nat, r: ReaderOf)
    requires b.queue != [] && Reads(Notify(b.(queue := b.queue[1..]), b.queue[0], serialize), t, r)
    ensures Reads(b, t, r)
  {
    hide Frame, BytesOf;
  }

  lemma EndedReads(b: Bridge, job: nat, messages: seq<Message>, t: nat, r: ReaderOf)
    requires job < |b.readJobs| && Reads(ReadEnded(b, job, messages), t, r)
    ensures Reads(b, t, r)
  {
    hide AsCommands;
    assert b.readJobs[job] in b.readJobs;
    assert forall j :: j in Remove(b.readJobs, job) ==> j in b.readJobs;
  }

  lemma ReadersKnownStep(b: Bridge, step: Step, b': Bridge, serialize: Message -> Bytes)
    requires Identified(b) && ReadersKnown(b) && Next(b, step, b', serialize)
    ensures ReadersKnown(b')
  {
    hide Next, Identified;
    ClientStep(b, step, b', serialize);
    forall t, r | Reads(b', t, r) ensures r.serial < b'.nextSerial {
      ReadsStep(b, step, b', serialize, t, r);
    }
    forall t | t in b'.connections && b'.connections[t].reader.Held?
      ensures b'.connections[t].reader.owner.serial < b'.nextSerial
    {
      HeldStep(b, step, b', serialize, t);
    }
  }

  /** Where the reader a connection holds comes from. */
  lemma HeldStep(b: Bridge, step: Step, b': Bridge, serialize: Message -> Bytes, t: nat)
    requires Next(b, step, b', serialize) && t in b'.connections && b'.connections[t].reader.Held?
    ensures var r := b'.connections[t].reader.owner;
            if step == Connects(t) then r == b'.connections[t].clientId && r.serial < b'.nextSerial
            else (t in b.connections && b.connections[t].reader == Held(r)) || Reads(b, t, r)
  {
    match step
    case Notifies =>
      hide Notify;
      HeldNotify(b.(queue := b.queue[1..]), b.queue[0], serialize, t);
    case Readies(token, readable, writable, hup) =>
      hide Ready;
      HeldReady(b, token, readable, writable, hup, t);
    case _ => hide WriteMoves, AsCommands, BytesOf, Remove;
  }

  lemma HeldNotify(b: Bridge, command: Command, serialize: Message -> Bytes, t: nat)
    requires t in Notify(b, command, serialize).connections && Notify(b, command, serialize).connections[t].reader.Held?
    ensures var reader := Notify(b, command, serialize).connections[t].reader;
            (t in b.connections && b.connections[t].reader == reader) || command == ReRegisterForReading(t,
                reader.owner)
  {
    hide Frame, BytesOf;
  }

  lemma HeldReady(b: Bridge, token: nat, readable: bool, writable: bool, hup: bool, t: nat)
    requires CanBeReady(b, token, readable, writable)
    ensures var connections := Ready(b, token, readable, writable, hup).connections;
            t in connections && connections[t].reader.Held? ==>
              t in b.connections && connections[t].reader == b.connections[t].reader
  {
  }

  lemma ClientStep(b: Bridge, step: Step, b': Bridge, serialize: Message -> Bytes)
    requires Next(b, step, b', serialize)
    ensures b.nextSerial <= b'.nextSerial
    ensures forall t :: t in b'.connections && step != Connects(t) ==>
              t in b.connections && b.connections[t].clientId == b'.connections[t].clientId
  {
    match step
    case Notifies =>
      hide Notify;
      NotifyKeepsClients(b.(queue := b.queue[1..]), b.queue[0], serialize);
    case Readies(token, readable, writable, hup) =>
      hide Ready;
      ReadyKeepsClients(b, token, readable, writable, hup);
    case _ => hide WriteMoves, AsCommands, BytesOf, Remove;
  }

  lemma NotifyKeepsClients(b: Bridge, command: Command, serialize: Message -> Bytes)
    ensures var b' := Notify(b, command, serialize);
            && b'.nextSerial == b.nextSerial && b'.connections.Keys == b.connections.Keys
            && forall t :: t in b.connections ==> b'.connections[t].clientId == b.connections[t].clientId
  {
    hide Frame, BytesOf;
  }

  lemma ReadyKeepsClients(b: Bridge, token: nat, readable: bool, writable: bool, hup: bool)
    requires CanBeReady(b, token, readable, writable)
    ensures var b' := Ready(b, token, readable, writable, hup);
            && b'.nextSerial == b.nextSerial && b'.connections.Keys <= b.connections.Keys
            && forall t :: t in b'.connections ==> b'.connections[t].clientId == b.connections[t].clientId
  {
  }

  /** A step keeps the readers apart if and only if it does not give out a token whose last reader is
      still outstanding. */
  lemma OwnReadersIff(b: Bridge, step: Step, b': Bridge, serialize: Message -> Bytes)
    requires Identified(b) && ReadersKnown(b) && OwnReaders(b) && Next(b, step, b', serialize)
    ensures OwnReaders(b') <==> (step.Connects? ==> !Outstanding(b, step.token))
  {
    hide Next, Identified;
    if step.Connects? && Outstanding(b, step.token) {
      var r :| Reads(b, step.token, r);
      ConnectsReads(b, step.token, b', serialize, r);
    } else {
      ClientStep(b, step, b', serialize);
      forall t | t in b'.connections && b'.connections[t].reader.Held?
        ensures b'.connections[t].reader.owner == b'.connections[t].clientId
      {
        HeldStep(b, step, b', serialize, t);
      }
      forall t, r | t in b'.connections && Reads(b', t, r) ensures r == b'.connections[t].clientId {
        ReadsStep(b, step, b', serialize, t, r);
        assert step == Connects(t) ==> Outstanding(b, t);
      }
    }
  }

  lemma ConnectsReads(b: Bridge, token: nat, b': Bridge, serialize: Message -> Bytes, r: ReaderOf)
    requires Next(b, Connects(token), b', serialize) && Reads(b, token, r) && r.serial < b.nextSerial
    ensures token in b'.connections && Reads(b', token, r) && r != b'.connections[token].clientId
  {
  }

  lemma {:induction false} AlwaysReadersKnown(steps: seq<Step>, b: Bridge, serialize: Message -> Bytes)
    requires Leads(steps, b, serialize)
    ensures ReadersKnown(b)
    decreases |steps|
  {
    if steps != [] {
      var b0 := LeadsLast(steps, b, serialize);
      AlwaysReadersKnown(DropLast(steps), b0, serialize);
      BridgeInv(DropLast(steps), b0, serialize);
      hide ReadersKnown, Identified, Next;
      ReadersKnownStep(b0, LastOf(steps), b, serialize);
    }
  }

  /** In any run that has kept the readers apart so far, the next step keeps them apart if and only if
      it does not give a new client a token whose last reader is still outstanding. */
  lemma ReadersApartIff(steps: seq<Step>, b: Bridge, step: Step, b': Bridge, serialize: Message -> Bytes)
    requires Leads(steps, b, serialize) && OwnReaders(b) && Next(b, step, b', serialize)
    ensures OwnReaders(b') <==> (step.Connects? ==> !Outstanding(b, step.token))
  {
    hide Next, OwnReaders, Outstanding;
    BridgeInv(steps, b, serialize);
    AlwaysReadersKnown(steps, b, serialize);
    OwnReadersIff(b, step, b', serialize);
  }

  // ---------- No lost reader ----------

  /** Every live connection will see what comes in: it is armed for reading, or its reader comes back. */
  ghost predicate Listening(b: Bridge) {
    forall t :: t in b.connections ==> b.connections[t].armedForReading || Outstanding(b, t)
  }

  /** A reader that is on its way stays so until it is given to the connection of its token. */
  lemma ReadsStays(b: Bridge, step: Step, b': Bridge, serialize: Message -> Bytes, t: nat, r: ReaderOf)
    requires Next(b, step, b', serialize) && Reads(b, t, r)
    ensures Reads(b', t, r) || (t in b'.connections ==> b'.connections[t].armedForReading)
  {
    hide Frame, WriteMoves, AsCommands, BytesOf;
    match step
    case Notifies => assert forall c :: c in b.queue ==> c == b.queue[0] || c in b.queue[1..];
    case ReadEnds(job, messages) =>
      hide Remove;
      EndedStays(b, job, messages, t, r);
    case _ =>
  }

  lemma EndedStays(b: Bridge, job: nat, messages: seq<Message>, t: nat, r: ReaderOf)
    requires job < |b.readJobs| && Reads(b, t, r)
    ensures Reads(ReadEnded(b, job, messages), t, r)
  {
    hide AsCommands;
    var b' := ReadEnded(b, job, messages);
    forall j | j in b.readJobs && j != b.readJobs[job] ensures j in b'.readJobs {
      var i :| 0 <= i < |b.readJobs| && b.readJobs[i] == j;
      assert b'.readJobs[if i < job then i else i - 1] == j;
    }
    assert ReRegisterForReading(b.readJobs[job].token, b.readJobs[job].reader) in b'.queue;
  }

  /** A connection that is armed stays so, or its reader is taken by a job. */
  lemma ArmedStep(b: Bridge, step: Step, b': Bridge, serialize: Message -> Bytes, t: nat)
    requires Next(b, step, b', serialize) && t in b'.connections
    requires t in b.connections ==> b.connections[t].armedForReading
    ensures b'.connections[t].armedForReading || Outstanding(b', t)
  {
    hide Frame, WriteMoves, AsCommands, BytesOf, Remove, Outstanding;
    match step
    case Readies(token, readable, writable, hup) =>
      hide Ready;
      ArmedReady(b, token, readable, writable, hup, t);
    case _ =>
  }

  lemma ArmedReady(b: Bridge, token: nat, readable: bool, writable: bool, hup: bool, t: nat)
    requires CanBeReady(b, token, readable, writable)
    requires var connections := Ready(b, token, readable, writable, hup).connections;
             t in connections && (t in b.connections ==> b.connections[t].armedForReading)
    ensures var b' := Ready(b, token, readable, writable, hup);
            b'.connections[t].armedForReading || Outstanding(b', t)
  {
    if token == t && readable {
      var r := b.connections[t].reader.owner;
      var job := ReadJob(t, b.connections[t].clientId, r);
      var b' := Ready(b, token, readable, writable, hup);
      assert b'.readJobs == b.readJobs + [job];
      assert job in b'.readJobs;
      assert Reads(b', t, r);
    }
  }

  lemma NextKeepsListening(b: Bridge, step: Step, b': Bridge, serialize: Message -> Bytes)
    requires Listening(b) && Next(b, step, b', serialize)
    ensures Listening(b')
  {
    hide Next, Reads;
    ClientStep(b, step, b', serialize);
    forall t | t in b'.connections ensures b'.connections[t].armedForReading || Outstanding(b', t) {
      if t in b.connections && !b.connections[t].armedForReading {
        var r :| Reads(b, t, r);
        ReadsStays(b, step, b', serialize, t, r);
      } else {
        ArmedStep(b, step, b', serialize, t);
      }
    }
  }

  /** In every run, a live connection is armed for reading and has its reader, or a read job for its
      token is running, or the reader of such a job is on its way back. */
  lemma {:induction false} NoLostReader(steps: seq<Step>, b: Bridge, serialize: Message -> Bytes, t: nat)
    requires Leads(steps, b, serialize) && t in b.connections
    ensures (b.connections[t].armedForReading && b.connections[t].reader.Held?) || Outstanding(b, t)
  {
    hide Outstanding;
    AlwaysListening(steps, b, serialize);
    BridgeInv(steps, b, serialize);
  }

  lemma {:induction false} AlwaysListening(steps: seq<Step>, b: Bridge, serialize: Message -> Bytes)
    requires Leads(steps, b, serialize)
    ensures Listening(b)
    decreases |steps|
  {
    if steps != [] {
      var b0 := LeadsLast(steps, b, serialize);
      AlwaysListening(DropLast(steps), b0, serialize);
      hide Listening, Next;
      NextKeepsListening(b0, LastOf(steps), b, serialize);
    }
  }

  ghost predicate Reachable(b: Bridge, serialize: Message -> Bytes) {
    exists steps: seq<Step> :: Leads(steps, b, serialize)
  }

  lemma ReachNext(b: Bridge, step: Step, b': Bridge, serialize: Message -> Bytes)
    requires Reachable(b, serialize) && Next(b, step, b', serialize)
    ensures Reachable(b', serialize)
  {
    hide Next;
    var steps: seq<Step> :| Leads(steps, b, serialize);
    var states :| Trace(states, steps, serialize) && states[|steps|] == b;
    var steps', states' := steps + [step], states + [b'];
    forall i {:trigger steps'[i]} | 0 <= i < |steps'| ensures Next(states'[i], steps'[i], states'[i + 1], serialize) {
      if i < |steps| {
        var earlier := steps[i];
        assert Next(states[i], earlier, states[i + 1], serialize);
      }
    }
    assert Trace(states', steps', serialize) && states'[|steps'|] == b';
    assert Leads(steps', b', serialize);
  }

  /** `ReRegisterForReading` looks at the token only. A client that hangs up during its read job, and
      another that gets its token, leave the second with the first one's reader. */
  lemma StaleReader(token: nat, serialize: Message -> Bytes)
    ensures exists b :: Reachable(b, serialize) && token in b.connections
                        && b.connections[token].reader == Held(ClientId(1, token))
                        && b.connections[token].clientId == ClientId(2, token)
  {
    assert Trace([NEW_BRIDGE], [], serialize);
    assert Leads([], NEW_BRIDGE, serialize);
    var b1 := NewClient(NEW_BRIDGE, token);
    ReachNext(NEW_BRIDGE, Connects(token), b1, serialize);
    var b2 := Ready(b1, token, true, false, true);
    ReachNext(b1, Readies(token, true, false, true), b2, serialize);
    var b3 := NewClient(b2, token);
    ReachNext(b2, Connects(token), b3, serialize);
    var b4 := ReadEnded(b3, 0, []);
    ReachNext(b3, ReadEnds(0, []), b4, serialize);
    var b5 := Notify(b4.(queue := b4.queue[1..]), b4.queue[0], serialize);
    ReachNext(b4, Notifies, b5, serialize);
  }
}
