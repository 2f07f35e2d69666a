/**
 The network over its real connections: the broker, the loops, the procedures and the callers of
 `Network`, with the event loop of `IpcBridge` and streams of bytes in place of the network's own
 queues between them.
 */
module Wire {
  import opened Wrappers
  import opened Rpc
  import opened Sequences
  import opened Ipc
  import opened IpcBridgeHandler
  import B = IpcBridge
  import N = Network
  import S = Swiboe
  import L = RpcLoop

  /** A client's bytes on their way to the server: in its writer, in the socket, and in the bridge's reader. */
  datatype Upward = Upward(pending: Bytes, wire: Bytes, buffer: Bytes)

  /** `rest` is what does not see connections; what the network has in their place is empty in it. Of the
      bytes written to a client, `taken` says how many it has read. */
  datatype System = System(rest: N.System, bridge: B.Bridge, taken: map<ClientId, nat>, up: map<ClientId, Upward>)

  const INITIAL_WIRE := System(N.INITIAL_SYSTEM, B.NEW_BRIDGE, map[], map[])

  datatype Step =
    | EventLoop(event: B.Step)
    | ReadJobEnds(job: nat, messages: seq<Message>)
    | ClientReads(client: ClientId)
    | ClientWrites(client: ClientId, count: nat)
    | Inside(step: N.Step)

  function Up(s: System, k: ClientId): Upward {
    if k in s.up then s.up[k] else Upward([], [], [])
  }

  function Taken(s: System, k: ClientId): nat {
    if k in s.taken then s.taken[k] else 0
  }

  /** The bytes on the socket to a client that it has not read. */
  function Unread(s: System, k: ClientId): Bytes {
    var written := B.BytesOf(s.bridge.written, k);
    if Taken(s, k) <= |written| then written[Taken(s, k)..] else []
  }

  /** The bridge has moved on to `b'`: what it has sent to the server joins the server's queue, and a new
      client starts its loop. */
  function BridgeMoved(s: System, step: B.Step, b': B.Bridge): System {
    var told := if |s.bridge.toServer| <= |b'.toServer| then b'.toServer[|s.bridge.toServer|..] else [];
    var loops := if step.Connects?
                 then s.rest.loops[ClientId(s.bridge.nextSerial, step.token) := N.Loop(true, L.State({}, map[], map[]))]
                 else s.rest.loops;
    s.(bridge := b', rest := s.rest.(inbox := s.rest.inbox + told, loops := loops))
  }

  function SendDatas(sent: seq<SendData>): seq<B.Command> {
    seq(|sent|, i requires 0 <= i < |sent| => B.SendData(sent[i].receiver, sent[i].message))
  }

  /** A client's writer thread frames what the loop sends. */
  function Queued(s: System, items: seq<N.UpItem>, serialize: Message -> Bytes): System
    decreases |items|
  {
    if items == [] then s
    else
      var k, line := items[0].client, Up(s, items[0].client);
      var line' := line.(pending := line.pending + Frame(serialize(items[0].message)));
      Queued(s.(up := s.up[k := line']), items[1..], serialize)
  }

  /** The steps of the network that have nothing to do with connections. */
  predicate IsInside(step: N.Step) {
    step.LoopTurns? || step.ServerTurns? || step.CalleeActs? || step.AppCalls? || step.AppCancels?
    || step.AppRegisters? || step.AppQuits?
  }

  /** What the step has sent goes to the bridge's queue and to the clients' writers. */
  function Handed(s: System, r: N.System, serialize: Message -> Bytes): System {
    Queued(s.(rest := r.(bridge := [], up := []), bridge := s.bridge.(queue := s.bridge.queue + SendDatas(r.bridge))),
           r.up, serialize)
  }

  /** A read job on the reader of client `o` has taken `messages` out of what was there and `chunk`. */
  ghost predicate JobReads(line: Upward, chunk: Bytes, messages: seq<Message>, line': Upward, codec: Codec<Message>) {
    && line.wire == chunk + line'.wire && line'.pending == line.pending
    && Drains(codec, line.buffer + chunk, messages, line'.buffer) && Unframe(line'.buffer) == None
  }

  function JobEnded(s: System, job: nat, messages: seq<Message>, line: Upward): System
    requires job < |s.bridge.readJobs|
  {
    BridgeMoved(s, B.ReadEnds(job, messages), B.ReadEnded(s.bridge, job, messages))
      .(up := s.up[s.bridge.readJobs[job].reader := line])
  }

  function Read(s: System, k: ClientId, count: nat, message: Message): System {
    s.(taken := s.taken[k := Taken(s, k) + count],
       rest := s.rest.(loopQueue := s.rest.loopQueue + [N.LoopItem(k, L.Received(message))]))
  }

  function Written(s: System, k: ClientId, count: nat): System
    requires count <= |Up(s, k).pending|
  {
    var line := Up(s, k);
    s.(up := s.up[k := line.(pending := line.pending[count..], wire := line.wire + line.pending[..count])])
  }

  ghost predicate Next(s: System, step: Step, s': System, codec: Codec<Message>) {
    match step
    case EventLoop(e) =>
      && !e.ServerSends? && !e.ReadEnds?
      && B.Next(s.bridge, e, s'.bridge, codec.serialize) && s' == BridgeMoved(s, e, s'.bridge)
    case ReadJobEnds(job, messages) =>
      && job < |s.bridge.readJobs|
      && exists chunk, line :: JobReads(Up(s, s.bridge.readJobs[job].reader), chunk, messages, line, codec)
                               && s' == JobEnded(s, job, messages, line)
    case ClientReads(k) =>
      && Unframe(Unread(s, k)).Some?
      && var body := Unframe(Unread(s, k)).value.0;
         codec.parse(body).Some? && s' == Read(s, k, 4 + |body|, codec.parse(body).value)
    case ClientWrites(k, n) => n <= |Up(s, k).pending| && s' == Written(s, k, n)
    case Inside(e) =>
      IsInside(e) && exists r :: N.Next(s.rest, e, r) && s' == Handed(s, r, codec.serialize)
  }

  /** What a read job does to its reader, as `IpcBridgeHandler.ReadJob` states it, is a step over the bytes. */
  lemma ReadJobIsStep(s: System, job: nat, messages: seq<Message>, line: Upward, codec: Codec<Message>)
    requires job < |s.bridge.readJobs| && Unframe(line.buffer) == None
    requires var before := Up(s, s.bridge.readJobs[job].reader);
             && line.pending == before.pending
             && exists chunk :: before.wire == chunk + line.wire
                                && Drains(codec, before.buffer + chunk, messages, line.buffer)
    ensures Next(s, ReadJobEnds(job, messages), JobEnded(s, job, messages, line), codec)
  {
    hide Drains;
    var before := Up(s, s.bridge.readJobs[job].reader);
    var chunk :| before.wire == chunk + line.wire && Drains(codec, before.buffer + chunk, messages, line.buffer);
    assert JobReads(before, chunk, messages, line, codec);
  }

  ghost predicate Trace(states: seq<System>, steps: seq<Step>, codec: Codec<Message>) {
    && |states| == |steps| + 1 && states[0] == INITIAL_WIRE
    && forall i {:trigger steps[i]} :: 0 <= i < |steps| ==> Next(states[i], steps[i], states[i + 1], codec)
  }

  /** No step of the run gives a new client a token whose last reader is still outstanding. */
  ghost predicate KeepsApart(states: seq<System>, steps: seq<Step>)
    requires |states| == |steps| + 1
  {
    forall i :: 0 <= i < |steps| ==> StepApart(states[i], steps[i])
  }

  ghost predicate StepApart(s: System, step: Step) {
    step.EventLoop? && step.event.Connects? ==> !B.Outstanding(s.bridge, step.event.token)
  }

  ghost predicate Reached(s: System, codec: Codec<Message>) {
    exists states, steps :: Trace(states, steps, codec) && states[|steps|] == s
  }

  lemma ReachedAtStart(codec: Codec<Message>)
    ensures Reached(INITIAL_WIRE, codec)
  {
    hide Next;
    assert Trace([INITIAL_WIRE], [], codec);
  }

  lemma ReachedNext(s: System, step: Step, s': System, codec: Codec<Message>)
    requires Reached(s, codec) && Next(s, step, s', codec)
    ensures Reached(s', codec)
  {
    hide Next;
    var states, steps :| Trace(states, steps, codec) && states[|steps|] == s;
    var steps', states' := steps + [step], states + [s'];
    forall i {:trigger steps'[i]} | 0 <= i < |steps'| ensures Next(states'[i], steps'[i], states'[i + 1], codec) {
      if i < |steps| {
        var earlier := steps[i];
        assert Next(states[i], earlier, states[i + 1], codec);
      }
    }
    assert Trace(states', steps', codec) && states'[|steps'|] == s';
  }
}
