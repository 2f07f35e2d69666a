/**
 The bridge in the form of its source: an event loop handler that changes its connections in place,
 proved to take the steps of `IpcBridge`, and the two jobs it gives to its thread pool, on the readers
 and writers of `Ipc`.
 */
module IpcBridgeHandler {
  import opened Wrappers
  import opened Rpc
  import opened Sequences
  import opened Ipc
  import B = IpcBridge
  import S = Swiboe

  class IpcBridge {
    const serialize: Message -> Bytes
    const commands: Sender<S.Command>
    var connections: map<nat, B.Connection>
    var nextSerial: nat
    // the bytes in the writers of the connections, by client
    var pending: map<ClientId, Bytes>
    var writeJobs: seq<B.WriteJob>
    var readJobs: seq<B.ReadJob>
    ghost var handled: seq<Rpc.SendData>
    ghost var accepted: seq<Rpc.SendData>

    constructor (serialize: Message -> Bytes, commands: Sender<S.Command>)
      ensures this.serialize == serialize && this.commands == commands
      ensures commands.sent == [] ==> View(map[], []) == B.NEW_BRIDGE
    {
      this.serialize, this.commands := serialize, commands;
      connections, nextSerial, pending, writeJobs, readJobs := map[], 1, map[], [], [];
      handled, accepted := [], [];
    }

    /** The state of the machine; the sockets and the channel to the event loop are not its own. */
    ghost function View(written: map<ClientId, Bytes>, queue: seq<B.Command>): B.Bridge
      reads this, commands
    {
      B.Bridge(connections, nextSerial, pending, written, queue, writeJobs, readJobs, commands.sent, handled, accepted)
    }

    method NewClient(token: nat)
      requires token !in connections
      modifies this, commands
      ensures forall w, q :: View(w, q) == B.NewClient(old(View(w, q)), token)
    {
      var serial := nextSerial;
      nextSerial := nextSerial + 1;
      var clientId := ClientId(serial, token);
      commands.Send(S.ClientConnected(clientId));
      connections := connections[token := B.Connection(clientId, B.Held(clientId), true, true)];
    }

    method ReregisterForWriting(token: nat)
      modifies this
      ensures forall w, q :: View(w, q) == old(View(w, q)).(connections := B.ArmedForWriting(old(connections), token))
    {
      if token in connections {
        connections := connections[token := connections[token].(armedForWriting := true)];
      }
    }

    method Notify(command: B.Command)
      modifies this, commands
      ensures forall w, q :: View(w, q) == B.Notify(old(View(w, q)), command, serialize)
    {
      match command
      case SendData(receiver, message) =>
        handled := handled + [Rpc.SendData(receiver, message)];
        if receiver.token in connections && connections[receiver.token].clientId == receiver {
          pending := pending[receiver := B.BytesOf(pending, receiver) + Frame(serialize(message))];
          accepted := accepted + [Rpc.SendData(connections[receiver.token].clientId, message)];
          ReregisterForWriting(receiver.token);
        } else {
          commands.Send(S.SendDataFailed(receiver, message));
        }
      case ReRegisterForReading(token, reader) =>
        if token in connections {
          connections := connections[token := connections[token].(reader := B.Held(reader), armedForReading := true)];
        }
      case ReRegisterForWriting(token) => ReregisterForWriting(token);
    }

    method Ready(token: nat, readable: bool, writable: bool, hup: bool)
      requires B.CanBeReady(View(map[], []), token, readable, writable)
      modifies this, commands
      ensures forall w, q :: B.CanBeReady(old(View(w, q)), token, readable, writable)
      ensures forall w, q :: View(w, q) == B.Ready(old(View(w, q)), token, readable, writable, hup)
    {
      if readable && token in connections {
        var conn := connections[token];
        connections := connections[token := conn.(reader := B.Taken, armedForReading := false)];
        readJobs := readJobs + [B.ReadJob(token, conn.clientId, conn.reader.owner)];
      }
      if writable && token in connections {
        var conn := connections[token];
        connections := connections[token := conn.(armedForWriting := false)];
        writeJobs := writeJobs + [B.WriteJob(token, conn.clientId)];
      }
      if hup && token in connections {
        var clientId := connections[token].clientId;
        connections := connections - {token};
        commands.Send(S.ClientDisconnected(clientId));
      }
    }
  }

  // ---------- Jobs ----------

  /** A write job: it asks to be armed again exactly when bytes are left. */
  method WriteJob(writer: Writer<Message>, token: nat, eventLoop: Sender<B.Command>) returns (ok: bool)
    requires writer.Valid()
    modifies writer, writer.socket, eventLoop
    ensures writer.Valid()
    ensures WriteMoves(old(writer.Pending()), old(writer.socket.bytes), writer.Pending(), writer.socket.bytes)
    ensures ok ==> eventLoop.sent ==
                   old(eventLoop.sent) + if writer.Pending() == [] then [] else [B.ReRegisterForWriting(token)]
  {
    var state := writer.TryWrite();
    match state
    case Failure(_) => return false;
    case Success(AllWritten) => return true;
    case Success(MoreToWrite) =>
      eventLoop.Send(B.ReRegisterForWriting(token));
      return true;
  }

  /** What a write job does to its writer, its socket and the event loop's channel is the machine's step. */
  lemma WriteJobIsStep(b: B.Bridge, job: nat, pending: Bytes, written: Bytes, queue: seq<B.Command>,
                       serialize: Message -> Bytes)
    requires job < |b.writeJobs|
    requires var id := b.writeJobs[job].clientId;
             WriteMoves(B.BytesOf(b.pending, id), B.BytesOf(b.written, id), pending, written)
    requires queue == b.queue + if pending == [] then [] else [B.ReRegisterForWriting(b.writeJobs[job].token)]
    ensures var id := b.writeJobs[job].clientId;
            B.Next(b, B.Writes(job, pending, written),
                   b.(writeJobs := Remove(b.writeJobs, job), pending := b.pending[id := pending],
                      written := b.written[id := written], queue := queue), serialize)
  {
    hide WriteMoves;
    assert b.queue + [] == b.queue;
  }

  /** What a read job sends to the server and to the event loop is the machine's step. */
  lemma ReadJobIsStep(b: B.Bridge, job: nat, messages: seq<Message>, toServer: seq<S.Command>, queue: seq<B.Command>,
                      serialize: Message -> Bytes)
    requires job < |b.readJobs| && toServer == b.toServer + B.AsCommands(b.readJobs[job].clientId, messages)
    requires queue == b.queue + [B.ReRegisterForReading(b.readJobs[job].token, b.readJobs[job].reader)]
    ensures B.Next(b, B.ReadEnds(job, messages),
                   b.(readJobs := Remove(b.readJobs, job), toServer := toServer, queue := queue), serialize)
  {
  }

  /** Taking `messages` from the front of `all`, frame by frame, leaves `left`. */
  ghost predicate Drains(codec: Codec<Message>, all: Bytes, messages: seq<Message>, left: Bytes)
    decreases |messages|
  {
    if messages == [] then left == all
    else match Unframe(all)
      case None => false
      case Some((body, rest)) => codec.parse(body) == Some(messages[0]) && Drains(codec, rest, messages[1..], left)
  }

  lemma UnframeMore(all: Bytes, more: Bytes)
    requires Unframe(all).Some?
    ensures Unframe(all + more) == Some((Unframe(all).value.0, Unframe(all).value.1 + more))
  {
    assert (all + more)[..4] == all[..4];
    var n := ParseLength(all[..4]);
    assert (all + more)[4..4 + n] == all[4..4 + n];
    assert (all + more)[4 + n..] == all[4 + n..] + more;
  }

  lemma {:induction false} DrainsMore(codec: Codec<Message>, all: Bytes, messages: seq<Message>, left: Bytes,
      more: Bytes)
    requires Drains(codec, all, messages, left)
    ensures Drains(codec, all + more, messages, left + more)
    decreases |messages|
  {
    if messages != [] {
      UnframeMore(all, more);
      DrainsMore(codec, Unframe(all).value.1, messages[1..], left, more);
    }
  }

  lemma {:induction false} DrainsOne(codec: Codec<Message>, all: Bytes, messages: seq<Message>, left: Bytes, m: Message)
    requires Drains(codec, all, messages, left)
    requires Unframe(left).Some? && codec.parse(Unframe(left).value.0) == Some(m)
    ensures Drains(codec, all, messages + [m], Unframe(left).value.1)
    decreases |messages|
  {
    if messages == [] {
      assert messages + [m] == [m];
    } else {
      assert (messages + [m])[1..] == messages[1..] + [m];
      DrainsOne(codec, Unframe(all).value.1, messages[1..], left, m);
    }
  }

  /** From a buffer and a socket's bytes on, `chunk` has come in and `messages` have been taken out. */
  ghost predicate Came(codec: Codec<Message>, buffer0: Bytes, bytes0: Bytes, chunk: Bytes, messages: seq<Message>,
                       buffer: Bytes, bytes: Bytes) {
    bytes0 == chunk + bytes && Drains(codec, buffer0 + chunk, messages, buffer)
  }

  /** One result of `try_read_message`. */
  lemma CameStep(codec: Codec<Message>, buffer0: Bytes, bytes0: Bytes, chunk: Bytes, messages: seq<Message>,
                 buffer: Bytes, bytes: Bytes, part: Bytes, r: Result<Option<Message>, ReadError>, buffer': Bytes,
                     bytes': Bytes)
    requires Came(codec, buffer0, bytes0, chunk, messages, buffer, bytes)
    requires bytes == part + bytes' && ReadGives(codec, buffer + part, r, buffer') && r.Success?
    ensures r.value.None? ==> Unframe(buffer') == None && Came(codec, buffer0, bytes0, chunk + part, messages,
        buffer', bytes')
    ensures r.value.Some? ==> Came(codec, buffer0, bytes0, chunk + part, messages + [r.value.value], buffer', bytes')
    ensures |buffer'| + |bytes'| <= |buffer| + |bytes| - if r.value.Some? then 1 else 0
  {
    assert (buffer0 + chunk) + part == buffer0 + (chunk + part);
    assert chunk + (part + bytes') == (chunk + part) + bytes';
    DrainsMore(codec, buffer0 + chunk, messages, buffer, part);
    if r.value.Some? {
      DrainsOne(codec, buffer0 + (chunk + part), messages, buffer + part, r.value.value);
    }
  }

  lemma AsCommandsAppend(id: ClientId, messages: seq<Message>, m: Message)
    ensures B.AsCommands(id, messages + [m]) == B.AsCommands(id, messages) + [B.AsCommand(id, m)]
    ensures B.AsCommands(id, []) == []
  {
  }

  /** A read job, on a socket that holds what will come in while it runs. When it ends well, the server
      has been sent every complete message among the bytes that came in, in order and under the
      client's identity, and no complete frame is left in the reader. */
  method ReadJob(reader: Ipc.Reader<Message>, owner: B.ReaderOf, token: nat, clientId: ClientId,
                 commands: Sender<S.Command>, eventLoop: Sender<B.Command>)
    returns (ok: bool, ghost messages: seq<Message>)
    modifies reader, reader.socket, commands, eventLoop
    ensures commands.sent == old(commands.sent) + B.AsCommands(clientId, messages)
    ensures ok ==> Unframe(reader.buffer) == None
    ensures ok ==> eventLoop.sent == old(eventLoop.sent) + [B.ReRegisterForReading(token, owner)]
    ensures ok ==> exists chunk :: old(reader.socket.bytes) == chunk + reader.socket.bytes
                                   && Drains(reader.codec, old(reader.buffer) + chunk, messages, reader.buffer)
  {
    hide Came, ReadGives, B.AsCommands;
    messages := [];
    ghost var chunk: Bytes := [];
    var more := true;
    CameNothing(reader.codec, reader.buffer, reader.socket.bytes);
    while more
      invariant commands.sent == old(commands.sent) + B.AsCommands(clientId, messages)
      invariant eventLoop.sent == old(eventLoop.sent)
      invariant Came(reader.codec, old(reader.buffer), old(reader.socket.bytes), chunk, messages, reader.buffer,
          reader.socket.bytes)
      invariant !more ==> Unframe(reader.buffer) == None
      decreases |reader.buffer| + |reader.socket.bytes|, more
    {
      ghost var buffer, bytes := reader.buffer, reader.socket.bytes;
      var r := reader.TryReadMessage();
      if r.Failure? {
        return false, messages;
      }
      ghost var part :| bytes == part + reader.socket.bytes && ReadGives(reader.codec, buffer + part, r, reader.buffer);
      CameStep(reader.codec, old(reader.buffer), old(reader.socket.bytes), chunk, messages, buffer, bytes,
               part, r, reader.buffer, reader.socket.bytes);
      chunk := chunk + part;
      match r.value
      case None => more := false;
      case Some(message) =>
        commands.Send(B.AsCommand(clientId, message));
        AsCommandsAppend(clientId, messages, message);
        messages := messages + [message];
    }
    CameAll(reader.codec, old(reader.buffer), old(reader.socket.bytes), chunk, messages, reader.buffer,
        reader.socket.bytes);
    eventLoop.Send(B.ReRegisterForReading(token, owner));
    return true, messages;
  }

  lemma CameNothing(codec: Codec<Message>, buffer: Bytes, bytes: Bytes)
    ensures Came(codec, buffer, bytes, [], [], buffer, bytes)
    ensures forall id :: B.AsCommands(id, []) == []
  {
    assert [] + bytes == bytes && buffer + [] == buffer;
  }

  lemma CameAll(codec: Codec<Message>, buffer0: Bytes, bytes0: Bytes, chunk: Bytes, messages: seq<Message>,
                buffer: Bytes, bytes: Bytes)
    requires Came(codec, buffer0, bytes0, chunk, messages, buffer, bytes)
    ensures bytes0 == chunk + bytes && Drains(codec, buffer0 + chunk, messages, buffer)
  {
  }
}
