/**
 The real connections carry the network. As long as no token is given out while a reader of it is
 outstanding, every step over the bytes is made of steps of the network, so every property of the
 network's runs holds over the bytes.
 */
module WireRefinement {
  import opened Wrappers
  import opened Rpc
  import opened Sequences
  import opened Ipc
  import opened IpcBridgeHandler
  import opened Wire
  import B = IpcBridge
  import N = Network
  import NB = NetworkBounces
  import NI = NetworkInvariant
  import NT = NetworkTheorems
  import S = Swiboe
  import L = RpcLoop
  import C = CalleeContext

  // ---------- The relation ----------

  function AsData(c: B.Command): seq<SendData> {
    if c.SendData? then [SendData(c.receiver, c.message)] else []
  }

  /** The messages the event loop has still to handle. */
  function Datas(queue: seq<B.Command>): seq<SendData> {
    FlatMap(queue, (c: B.Command) => AsData(c))
  }

  function FrameFrom(k: ClientId, serialize: Message -> Bytes): N.UpItem -> Bytes {
    (m: N.UpItem) => if m.client == k then Frame(serialize(m.message)) else []
  }

  function FramesFrom(up: seq<N.UpItem>, k: ClientId, serialize: Message -> Bytes): Bytes {
    FlatMap(up, FrameFrom(k, serialize))
  }

  /** All bytes on the way to a client: on the socket and in the writer. */
  function DownBytes(s: System, k: ClientId): Bytes {
    Unread(s, k) + B.BytesOf(s.bridge.pending, k)
  }

  /** All bytes on the way from a client. */
  function UpBytes(s: System, k: ClientId): Bytes {
    LineBytes(Up(s, k))
  }

  function LineBytes(line: Upward): Bytes {
    line.buffer + line.wire + line.pending
  }

  ghost predicate SameParts(s: System, a: N.System) {
    && a == s.rest.(bridge := Datas(s.bridge.queue), live := a.live, nextSerial := s.bridge.nextSerial,
                    down := a.down, up := a.up)
    && s.rest.bridge == [] && s.rest.up == []
  }

  ghost predicate SameLive(b: B.Bridge, a: N.System) {
    forall k :: k in a.live <==> B.Live(b, k)
  }

  ghost predicate DownCarried(s: System, a: N.System, codec: Codec<Message>) {
    && (forall k :: Taken(s, k) <= |B.BytesOf(s.bridge.written, k)|)
    && (forall k :: DownBytes(s, k) == B.FramesTo(a.down, k, codec.serialize))
  }

  ghost predicate UpCarried(s: System, a: N.System, codec: Codec<Message>) {
    forall k :: UpBytes(s, k) == FramesFrom(a.up, k, codec.serialize)
  }

  /** The connections of `s` hold just the messages that `a` has on the way, client by client and in order. */
  ghost predicate Carries(s: System, a: N.System, codec: Codec<Message>) {
    SameParts(s, a) && SameLive(s.bridge, a) && DownCarried(s, a, codec) && UpCarried(s, a, codec)
  }

  /** Where no bytes are, no messages are. */
  lemma NothingHidden(s: System, a: N.System, codec: Codec<Message>)
    requires Carries(s, a, codec)
    ensures (a.bridge == [] <==> Datas(s.bridge.queue) == [])
    ensures a.down == [] <==> forall k :: DownBytes(s, k) == []
    ensures a.up == [] <==> forall k :: UpBytes(s, k) == []
  {
    hide Datas, Frame, DownBytes, UpBytes;
    if a.down != [] {
      var k := a.down[0].receiver;
      FrameThere(codec.serialize(a.down[0].message));
      assert B.FramesTo(a.down, k, codec.serialize) != [];
      assert DownBytes(s, k) != [];
    }
    if a.up != [] {
      var k := a.up[0].client;
      FrameThere(codec.serialize(a.up[0].message));
      assert FramesFrom(a.up, k, codec.serialize) != [];
      assert UpBytes(s, k) != [];
    }
  }

  lemma FrameThere(body: Bytes)
    ensures |Frame(body)| >= 4
  {
  }

  // ---------- Runs of the network ----------

  ghost predicate Goes(a: N.System, steps: seq<N.Step>, a': N.System)
    decreases |steps|
  {
    if steps == [] then a' == a
    else exists a1 :: N.Next(a, steps[0], a1) && Goes(a1, steps[1..], a')
  }

  /** Steps of the network lead from the one to the other. */
  ghost predicate Later(a: N.System, a': N.System) { exists steps :: Goes(a, steps, a') }

  lemma LaterNone(a: N.System)
    ensures Later(a, a)
  {
    assert Goes(a, [], a);
  }

  lemma LaterFirst(a: N.System, step: N.Step, a1: N.System, a': N.System)
    requires N.Next(a, step, a1) && Later(a1, a')
    ensures Later(a, a')
  {
    hide N.Next;
    var steps :| Goes(a1, steps, a');
    assert ([step] + steps)[0] == step && ([step] + steps)[1..] == steps;
    assert Goes(a, [step] + steps, a');
  }

  lemma LaterOne(a: N.System, step: N.Step, a': N.System)
    requires N.Next(a, step, a')
    ensures Later(a, a')
  {
    hide N.Next;
    LaterNone(a');
    LaterFirst(a, step, a', a');
  }

  lemma {:induction false} GoesReached(a: N.System, steps: seq<N.Step>, a': N.System)
    requires N.Reached(a) && Goes(a, steps, a')
    ensures N.Reached(a')
    decreases |steps|
  {
    hide N.Next, N.Reached;
    if steps != [] {
      var a1 :| N.Next(a, steps[0], a1) && Goes(a1, steps[1..], a');
      N.ReachedNext(a, steps[0], a1);
      GoesReached(a1, steps[1..], a');
    }
  }

  // ---------- The event loop ----------

  lemma DatasMore(queue: seq<B.Command>, c: B.Command)
    ensures Datas(queue + [c]) == Datas(queue) + AsData(c)
  {
    FlatMapAppend(queue, c, (c: B.Command) => AsData(c));
  }

  lemma DatasFirst(queue: seq<B.Command>)
    requires queue != []
    ensures Datas(queue) == AsData(queue[0]) + Datas(queue[1..])
  {
  }

  lemma ToldOne(s: System, step: B.Step, b': B.Bridge, command: S.Command)
    requires b'.toServer == s.bridge.toServer + [command]
    ensures BridgeMoved(s, step, b').rest.inbox == s.rest.inbox + [command]
  {
    assert b'.toServer[|s.bridge.toServer|..] == [command];
  }

  lemma ToldNone(s: System, step: B.Step, b': B.Bridge)
    requires b'.toServer == s.bridge.toServer
    ensures BridgeMoved(s, step, b').rest.inbox == s.rest.inbox
  {
    assert b'.toServer[|s.bridge.toServer|..] == [];
  }

  /** What does not touch bytes leaves what is carried. */
  lemma BytesStay(s: System, a: N.System, s': System, a': N.System, codec: Codec<Message>)
    requires DownCarried(s, a, codec) && UpCarried(s, a, codec) && a'.down == a.down && a'.up == a.up
    requires s'.bridge.written == s.bridge.written && s'.bridge.pending == s.bridge.pending
    requires s'.taken == s.taken && s'.up == s.up
    ensures DownCarried(s', a', codec) && UpCarried(s', a', codec)
  {
    hide B.FramesTo, FramesFrom, B.BytesOf;
    assert forall k :: DownBytes(s', k) == DownBytes(s, k) && Taken(s', k) == Taken(s, k);
    assert forall k :: UpBytes(s', k) == UpBytes(s, k);
  }

  lemma ConnectsRefines(s: System, a: N.System, token: nat, codec: Codec<Message>)
    requires Carries(s, a, codec) && token !in s.bridge.connections
    ensures var id := ClientId(s.bridge.nextSerial, token);
            var s' := BridgeMoved(s, B.Connects(token), B.NewClient(s.bridge, token));
            N.Next(a, N.Connect(id), N.Connected(a, id)) && Carries(s', N.Connected(a, id), codec)
  {
    hide Datas, DownCarried, UpCarried;
    var id, b' := ClientId(s.bridge.nextSerial, token), B.NewClient(s.bridge, token);
    ToldOne(s, B.Connects(token), b', S.ClientConnected(id));
    BytesStay(s, a, BridgeMoved(s, B.Connects(token), b'), N.Connected(a, id), codec);
  }

  /** What an event leaves as it is. */
  lemma ReadyParts(b: B.Bridge, token: nat, readable: bool, writable: bool, hup: bool)
    requires B.CanBeReady(b, token, readable, writable)
    ensures var b' := B.Ready(b, token, readable, writable, hup);
            && b' == b.(connections := b'.connections, writeJobs := b'.writeJobs, readJobs := b'.readJobs,
                        toServer := b'.toServer)
            && (forall k :: B.Live(b', k) <==> B.Live(b, k) && !(hup && k.token == token))
            && b'.toServer == b.toServer + if hup && token in b.connections
                                           then [S.ClientDisconnected(b.connections[token].clientId)] else []
  {
  }

  lemma ReadiesRefines(s: System, a: N.System, token: nat, readable: bool, writable: bool, hup: bool,
                       codec: Codec<Message>) returns (a': N.System)
    requires Carries(s, a, codec) && B.Identified(s.bridge) && B.CanBeReady(s.bridge, token, readable, writable)
    ensures Later(a, a')
    ensures Carries(BridgeMoved(s, B.Readies(token, readable, writable, hup),
                                B.Ready(s.bridge, token, readable, writable, hup)), a', codec)
  {
    hide Datas, DownCarried, UpCarried, Later, B.Ready;
    ReadyParts(s.bridge, token, readable, writable, hup);
    var e, b' := B.Readies(token, readable, writable, hup), B.Ready(s.bridge, token, readable, writable, hup);
    if token in s.bridge.connections && hup {
      a' := HangUpRefines(s, a, e, token, b', codec);
    } else {
      assert b'.toServer == s.bridge.toServer;
      ToldNone(s, e, b');
      BytesStay(s, a, BridgeMoved(s, e, b'), a, codec);
      a' := a;
      LaterNone(a);
    }
  }

  lemma HangUpRefines(s: System, a: N.System, e: B.Step, token: nat, b': B.Bridge, codec: Codec<Message>)
    returns (a': N.System)
    requires Carries(s, a, codec) && B.Identified(s.bridge) && token in s.bridge.connections && !e.Connects?
    requires b' == s.bridge.(connections := b'.connections, writeJobs := b'.writeJobs, readJobs := b'.readJobs,
                             toServer := b'.toServer)
    requires forall k :: B.Live(b', k) <==> B.Live(s.bridge, k) && k.token != token
    requires b'.toServer == s.bridge.toServer + [S.ClientDisconnected(s.bridge.connections[token].clientId)]
    ensures Later(a, a') && Carries(BridgeMoved(s, e, b'), a', codec)
  {
    hide Datas, DownCarried, UpCarried, Later;
    var id := s.bridge.connections[token].clientId;
    ToldOne(s, e, b', S.ClientDisconnected(id));
    assert B.Live(s.bridge, id);
    a' := N.HungUp(a, id);
    LaterOne(a, N.HangUp(id), a');
    BytesStay(s, a, BridgeMoved(s, e, b'), a', codec);
    assert SameParts(BridgeMoved(s, e, b'), a');
  }

  /** A message put into a writer is a message on its way. */
  lemma DownGrows(s: System, a: N.System, s': System, a': N.System, d: SendData, codec: Codec<Message>)
    requires DownCarried(s, a, codec) && a'.down == a.down + [d]
    requires s'.bridge.written == s.bridge.written && s'.taken == s.taken
    requires s'.bridge.pending == s.bridge.pending[d.receiver :=
               B.BytesOf(s.bridge.pending, d.receiver) + Frame(codec.serialize(d.message))]
    ensures DownCarried(s', a', codec)
  {
    hide Frame;
    forall k ensures DownBytes(s', k) == B.FramesTo(a'.down, k, codec.serialize) {
      FlatMapAppend(a.down, d, B.FrameFor(k, codec.serialize));
      assert DownBytes(s, k) == B.FramesTo(a.down, k, codec.serialize);
      Assoc(Unread(s, k), B.BytesOf(s.bridge.pending, k), Frame(codec.serialize(d.message)));
    }
    assert forall k :: Taken(s', k) == Taken(s, k);
  }

  lemma SendRefines(s: System, a: N.System, codec: Codec<Message>)
    requires Carries(s, a, codec) && s.bridge.queue != [] && s.bridge.queue[0].SendData?
    ensures a.bridge != []
    ensures var b' := B.Notify(s.bridge.(queue := s.bridge.queue[1..]), s.bridge.queue[0], codec.serialize);
            Carries(BridgeMoved(s, B.Notifies, b'), N.BridgeSent(a), codec)
  {
    hide Datas, DownCarried, UpCarried, Frame;
    var b := s.bridge.(queue := s.bridge.queue[1..]);
    var d, command := SendData(s.bridge.queue[0].receiver, s.bridge.queue[0].message), s.bridge.queue[0];
    DatasFirst(s.bridge.queue);
    assert AsData(command) == [d];
    assert a.bridge[0] == d && a.bridge[1..] == Datas(b.queue);
    if B.Live(s.bridge, d.receiver) {
      AcceptRefines(s, a, d, b, codec);
    } else {
      FailRefines(s, a, d, b, codec);
    }
  }

  lemma AcceptRefines(s: System, a: N.System, d: SendData, b: B.Bridge, codec: Codec<Message>)
    requires Carries(s, a, codec) && B.Live(s.bridge, d.receiver)
    requires b == s.bridge.(queue := b.queue) && a.bridge != [] && a.bridge[0] == d && a.bridge[1..] == Datas(b.queue)
    ensures var b' := B.Notify(b, B.SendData(d.receiver, d.message), codec.serialize);
            Carries(BridgeMoved(s, B.Notifies, b'), N.BridgeSent(a), codec)
  {
    hide Datas, DownCarried, UpCarried, Frame;
    var b' := B.Notify(b, B.SendData(d.receiver, d.message), codec.serialize);
    var s', a' := BridgeMoved(s, B.Notifies, b'), N.BridgeSent(a);
    ToldNone(s, B.Notifies, b');
    assert d.receiver in a.live;
    DownGrows(s, a, s', a', d, codec);
    UpStays(s, a, s', a', codec);
    assert forall k :: B.Live(b', k) <==> B.Live(s.bridge, k);
  }

  lemma FailRefines(s: System, a: N.System, d: SendData, b: B.Bridge, codec: Codec<Message>)
    requires Carries(s, a, codec) && !B.Live(s.bridge, d.receiver)
    requires b == s.bridge.(queue := b.queue) && a.bridge != [] && a.bridge[0] == d && a.bridge[1..] == Datas(b.queue)
    ensures var b' := B.Notify(b, B.SendData(d.receiver, d.message), codec.serialize);
            Carries(BridgeMoved(s, B.Notifies, b'), N.BridgeSent(a), codec)
  {
    hide Datas, DownCarried, UpCarried, Frame;
    var b' := B.Notify(b, B.SendData(d.receiver, d.message), codec.serialize);
    ToldOne(s, B.Notifies, b', S.SendDataFailed(d.receiver, d.message));
    assert d.receiver !in a.live;
    BytesStay(s, a, BridgeMoved(s, B.Notifies, b'), N.BridgeSent(a), codec);
    assert forall k :: B.Live(b', k) <==> B.Live(s.bridge, k);
  }

  lemma UpStays(s: System, a: N.System, s': System, a': N.System, codec: Codec<Message>)
    requires UpCarried(s, a, codec) && a'.up == a.up && s'.up == s.up
    ensures UpCarried(s', a', codec)
  {
    hide FramesFrom;
    assert forall k :: UpBytes(s', k) == UpBytes(s, k);
  }

  /** Arming a connection is nothing to the network. */
  lemma ArmRefines(s: System, a: N.System, codec: Codec<Message>)
    requires Carries(s, a, codec) && s.bridge.queue != [] && !s.bridge.queue[0].SendData?
    ensures var b' := B.Notify(s.bridge.(queue := s.bridge.queue[1..]), s.bridge.queue[0], codec.serialize);
            Carries(BridgeMoved(s, B.Notifies, b'), a, codec)
  {
    hide Datas, DownCarried, UpCarried, Frame;
    var b' := B.Notify(s.bridge.(queue := s.bridge.queue[1..]), s.bridge.queue[0], codec.serialize);
    DatasFirst(s.bridge.queue);
    assert AsData(s.bridge.queue[0]) == [];
    assert [] + Datas(s.bridge.queue[1..]) == Datas(s.bridge.queue[1..]);
    ToldNone(s, B.Notifies, b');
    BytesStay(s, a, BridgeMoved(s, B.Notifies, b'), a, codec);
    assert forall k :: B.Live(b', k) <==> B.Live(s.bridge, k);
  }

  /** A write job moves bytes from the writer to the socket. */
  lemma WritesRefines(s: System, a: N.System, job: nat, pending: Bytes, written: Bytes, codec: Codec<Message>)
    requires Carries(s, a, codec) && job < |s.bridge.writeJobs|
    requires var id := s.bridge.writeJobs[job].clientId;
             WriteMoves(B.BytesOf(s.bridge.pending, id), B.BytesOf(s.bridge.written, id), pending, written)
    ensures Carries(BridgeMoved(s, B.Writes(job, pending, written), B.Wrote(s.bridge, job, pending, written)), a, codec)
  {
    hide Datas, DownCarried, UpCarried, WriteMoves;
    var e, b' := B.Writes(job, pending, written), B.Wrote(s.bridge, job, pending, written);
    var s' := BridgeMoved(s, e, b');
    ToldNone(s, e, b');
    var again := B.ReRegisterForWriting(s.bridge.writeJobs[job].token);
    DatasMore(s.bridge.queue, again);
    assert Datas(s.bridge.queue) + [] == Datas(s.bridge.queue);
    DownMoves(s, a, s', s.bridge.writeJobs[job].clientId, pending, written, codec);
    UpStays(s, a, s', a, codec);
    assert forall k :: B.Live(b', k) <==> B.Live(s.bridge, k);
  }

  lemma DownMoves(s: System, a: N.System, s': System, id: ClientId, pending: Bytes, written: Bytes,
                  codec: Codec<Message>)
    requires DownCarried(s, a, codec) && s'.taken == s.taken
    requires WriteMoves(B.BytesOf(s.bridge.pending, id), B.BytesOf(s.bridge.written, id), pending, written)
    requires s'.bridge.pending == s.bridge.pending[id := pending]
    requires s'.bridge.written == s.bridge.written[id := written]
    ensures DownCarried(s', a, codec)
  {
    hide B.FramesTo;
    forall k
      ensures Taken(s', k) <= |B.BytesOf(s'.bridge.written, k)|
      ensures DownBytes(s', k) == B.FramesTo(a.down, k, codec.serialize)
    {
      assert DownBytes(s, k) == B.FramesTo(a.down, k, codec.serialize);
      assert Taken(s, k) <= |B.BytesOf(s.bridge.written, k)|;
      if k == id {
        MovedBehind(B.BytesOf(s.bridge.pending, id), B.BytesOf(s.bridge.written, id), pending, written, Taken(s, k));
      }
    }
  }

  /** Moving bytes from the writer to the socket changes nothing of what comes after the first `n`. */
  lemma MovedBehind(pending: Bytes, wire: Bytes, pending': Bytes, wire': Bytes, n: nat)
    requires WriteMoves(pending, wire, pending', wire') && n <= |wire|
    ensures n <= |wire'| && wire'[n..] + pending' == wire[n..] + pending
  {
    var m := |pending| - |pending'|;
    assert (wire + pending[..m])[n..] == wire[n..] + pending[..m];
    Assoc(wire[n..], pending[..m], pending[m..]);
    assert pending[..m] + pending[m..] == pending;
  }

  lemma EventRefines(s: System, a: N.System, e: B.Step, s': System, codec: Codec<Message>)
    requires Carries(s, a, codec) && B.Identified(s.bridge) && Wire.Next(s, EventLoop(e), s', codec)
    ensures exists a' :: Later(a, a') && Carries(s', a', codec)
  {
    hide Carries, Later, B.NewClient, B.Ready, B.Notify, B.Wrote, WriteMoves, B.Identified;
    match e
    case Connects(token) =>
      var id := ClientId(s.bridge.nextSerial, token);
      ConnectsRefines(s, a, token, codec);
      LaterOne(a, N.Connect(id), N.Connected(a, id));
    case Notifies =>
      if s.bridge.queue[0].SendData? {
        SendRefines(s, a, codec);
        LaterOne(a, N.BridgeSends, N.BridgeSent(a));
      } else {
        ArmRefines(s, a, codec);
        LaterNone(a);
      }
    case Readies(token, readable, writable, hup) =>
      var a' := ReadiesRefines(s, a, token, readable, writable, hup, codec);
    case Writes(job, pending, written) =>
      WritesRefines(s, a, job, pending, written, codec);
      LaterNone(a);
  }

  // ---------- Reading ----------

  /** If anything is contributed, something is so first. */
  lemma {:induction false} FirstThere<T, U>(q: seq<T>, f: T -> seq<U>) returns (i: nat)
    requires FlatMap(q, f) != []
    ensures i < |q| && f(q[i]) != [] && forall j :: 0 <= j < i ==> f(q[j]) == []
  {
    if f(q[0]) != [] {
      i := 0;
    } else {
      var i0 := FirstThere(q[1..], f);
      i := i0 + 1;
      forall j | 0 <= j < i ensures f(q[j]) == [] {
        assert j > 0 ==> q[j] == q[1..][j - 1];
      }
    }
  }

  /** What a client's connection gives first is the first message on its way. */
  lemma FirstDown(down: seq<SendData>, k: ClientId, codec: Codec<Message>, front: Bytes, behind: Bytes)
    returns (i: nat)
    requires Faithful(codec) && front + behind == B.FramesTo(down, k, codec.serialize) && Unframe(front).Some?
    ensures N.FirstSent(down, i) && down[i].receiver == k && Unframe(front).value.0 == codec.serialize(down[i].message)
    ensures Unframe(front).value.1 + behind == B.FramesTo(Remove(down, i), k, codec.serialize)
    ensures forall j :: j != k ==>
              B.FramesTo(Remove(down, i), j, codec.serialize) == B.FramesTo(down, j, codec.serialize)
  {
    hide Unframe, FlatMap, Remove;
    assert |front| >= 4 by { hide *; assert Unframe(front).Some?; UnframeLong(front); }
    var f := B.FrameFor(k, codec.serialize);
    i := FirstThere(down, f);
    FlatMapRemoveFirst(down, i, f);
    forall j | 0 <= j < i ensures down[j].receiver != k {
      assert f(down[j]) == [];
    }
    UnframeFirst(front, behind, codec.serialize(down[i].message), FlatMap(Remove(down, i), f));
    forall j | j != k
      ensures B.FramesTo(Remove(down, i), j, codec.serialize) == B.FramesTo(down, j, codec.serialize)
    {
      FlatMapRemoveNone(down, i, B.FrameFor(j, codec.serialize));
    }
  }

  lemma UnframeLong(bytes: Bytes)
    requires Unframe(bytes).Some?
    ensures |bytes| >= 4
  {
  }

  lemma FirstUp(up: seq<N.UpItem>, k: ClientId, codec: Codec<Message>, front: Bytes, behind: Bytes)
    returns (i: nat)
    requires Faithful(codec) && front + behind == FramesFrom(up, k, codec.serialize) && Unframe(front).Some?
    ensures N.FirstUp(up, i) && up[i].client == k && Unframe(front).value.0 == codec.serialize(up[i].message)
    ensures Unframe(front).value.1 + behind == FramesFrom(Remove(up, i), k, codec.serialize)
    ensures forall j :: j != k ==> FramesFrom(Remove(up, i), j, codec.serialize) == FramesFrom(up, j, codec.serialize)
  {
    hide Unframe, FlatMap, Remove;
    assert |front| >= 4 by { hide *; assert Unframe(front).Some?; UnframeLong(front); }
    var f := FrameFrom(k, codec.serialize);
    i := FirstThere(up, f);
    FlatMapRemoveFirst(up, i, f);
    forall j | 0 <= j < i ensures up[j].client != k {
      assert f(up[j]) == [];
    }
    UnframeFirst(front, behind, codec.serialize(up[i].message), FlatMap(Remove(up, i), f));
    forall j | j != k
      ensures FramesFrom(Remove(up, i), j, codec.serialize) == FramesFrom(up, j, codec.serialize)
    {
      FlatMapRemoveNone(up, i, FrameFrom(j, codec.serialize));
    }
  }

  lemma ClientReadRefines(s: System, a: N.System, k: ClientId, s': System, codec: Codec<Message>)
    requires Faithful(codec) && Carries(s, a, codec) && Wire.Next(s, ClientReads(k), s', codec)
    ensures exists a' :: Later(a, a') && Carries(s', a', codec)
  {
    hide Unframe, Later, UpCarried, Datas, B.FramesTo;
    var body, rest := Unframe(Unread(s, k)).value.0, Unframe(Unread(s, k)).value.1;
    assert DownBytes(s, k) == B.FramesTo(a.down, k, codec.serialize);
    var i := FirstDown(a.down, k, codec, Unread(s, k), B.BytesOf(s.bridge.pending, k));
    var a' := N.DownArrived(a, i);
    assert codec.parse(body) == Some(a.down[i].message);
    LaterOne(a, N.DownArrives(i), a');
    UpStays(s, a, s', a', codec);
    UnframeCut(B.BytesOf(s.bridge.written, k), Taken(s, k));
    DownTaken(s, a, k, s', a', |body| + 4, codec);
  }

  /** Taking out a frame is moving on by its length. */
  lemma UnframeCut(bytes: Bytes, n: nat)
    requires n <= |bytes| && Unframe(bytes[n..]).Some?
    ensures var (body, rest) := Unframe(bytes[n..]).value;
            n + |body| + 4 <= |bytes| && rest == bytes[n + |body| + 4..]
  {
  }

  lemma DownTaken(s: System, a: N.System, k: ClientId, s': System, a': N.System, count: nat, codec: Codec<Message>)
    requires DownCarried(s, a, codec) && s'.bridge == s.bridge && s'.taken == s.taken[k := Taken(s, k) + count]
    requires Taken(s, k) + count <= |B.BytesOf(s.bridge.written, k)|
    requires B.BytesOf(s.bridge.written, k)[Taken(s, k) + count..] + B.BytesOf(s.bridge.pending, k)
             == B.FramesTo(a'.down, k, codec.serialize)
    requires forall j :: j != k ==> B.FramesTo(a'.down, j, codec.serialize) == B.FramesTo(a.down, j, codec.serialize)
    ensures DownCarried(s', a', codec)
  {
    hide B.FramesTo;
    forall j
      ensures Taken(s', j) <= |B.BytesOf(s'.bridge.written, j)|
      ensures DownBytes(s', j) == B.FramesTo(a'.down, j, codec.serialize)
    {
      assert DownBytes(s, j) == B.FramesTo(a.down, j, codec.serialize);
      assert Taken(s, j) <= |B.BytesOf(s.bridge.written, j)|;
    }
  }

  lemma ClientWriteRefines(s: System, a: N.System, k: ClientId, n: nat, codec: Codec<Message>)
    requires Carries(s, a, codec) && n <= |Up(s, k).pending|
    ensures Carries(Written(s, k, n), a, codec)
  {
    hide B.FramesTo, FramesFrom, Datas;
    var s' := Written(s, k, n);
    BytesMove(Up(s, k), n);
    assert forall j :: UpBytes(s', j) == UpBytes(s, j);
    assert forall j :: DownBytes(s', j) == DownBytes(s, j) && Taken(s', j) == Taken(s, j);
  }

  lemma BytesMove(line: Upward, n: nat)
    requires n <= |line.pending|
    ensures LineBytes(line.(pending := line.pending[n..], wire := line.wire + line.pending[..n])) == LineBytes(line)
  {
    var moved, left := line.pending[..n], line.pending[n..];
    assert line.pending == moved + left;
    Regroup(line.buffer, line.wire, moved, left);
  }

  /** What a read job takes out of a reader is what the client has sent, message by message. */
  lemma {:induction false} JobRefines(a: N.System, o: ClientId, all: Bytes, behind: Bytes, messages: seq<Message>,
                                      left: Bytes, codec: Codec<Message>) returns (a': N.System)
    requires Faithful(codec) && Drains(codec, all, messages, left)
    requires all + behind == FramesFrom(a.up, o, codec.serialize)
    ensures Later(a, a') && a' == a.(up := a'.up, inbox := a.inbox + B.AsCommands(o, messages))
    ensures left + behind == FramesFrom(a'.up, o, codec.serialize)
    ensures forall j :: j != o ==> FramesFrom(a'.up, j, codec.serialize) == FramesFrom(a.up, j, codec.serialize)
    decreases |messages|
  {
    hide Unframe, FramesFrom, Later;
    if messages == [] {
      a' := a;
      LaterNone(a);
      assert a.inbox + B.AsCommands(o, []) == a.inbox;
    } else {
      var i := FirstUp(a.up, o, codec, all, behind);
      var a1 := N.UpArrived(a, i);
      assert a.up[i].message == messages[0];
      a' := JobRefines(a1, o, Unframe(all).value.1, behind, messages[1..], left, codec);
      LaterFirst(a, N.UpArrives(i), a1, a');
      CommandsFirst(a.inbox, o, messages);
    }
  }

  lemma CommandsFirst(inbox: seq<S.Command>, o: ClientId, messages: seq<Message>)
    requires messages != []
    ensures inbox + B.AsCommands(o, messages)
            == (inbox + [N.AsCommand(N.UpItem(o, messages[0]))]) + B.AsCommands(o, messages[1..])
  {
    assert B.AsCommands(o, messages) == [B.AsCommand(o, messages[0])] + B.AsCommands(o, messages[1..]);
  }

  lemma ReadJobRefines(s: System, a: N.System, job: nat, messages: seq<Message>, s': System, codec: Codec<Message>)
    requires Faithful(codec) && Carries(s, a, codec) && Wire.Next(s, ReadJobEnds(job, messages), s', codec)
    requires s.bridge.readJobs[job].clientId == s.bridge.readJobs[job].reader
    ensures exists a' :: Later(a, a') && Carries(s', a', codec)
  {
    hide Unframe, FramesFrom, Later, Drains, Datas, DownCarried, B.AsCommands;
    var j := s.bridge.readJobs[job];
    var o, line := j.reader, Up(s, j.reader);
    var chunk, line' :| JobReads(line, chunk, messages, line', codec) && s' == JobEnded(s, job, messages, line');
    assert UpBytes(s, o) == FramesFrom(a.up, o, codec.serialize);
    ChunkRead(line, chunk, line'.wire);
    var a' := JobRefines(a, o, line.buffer + chunk, line'.wire + line.pending, messages, line'.buffer, codec);
    UpTaken(s, a, o, s', a', line', codec);
    var b' := B.ReadEnded(s.bridge, job, messages);
    DatasMore(s.bridge.queue, B.ReRegisterForReading(j.token, j.reader));
    assert Datas(s.bridge.queue) + [] == Datas(s.bridge.queue);
    assert b'.toServer[|s.bridge.toServer|..] == B.AsCommands(j.clientId, messages);
    DownStays(s, a, s', a', codec);
    assert forall k :: B.Live(b', k) <==> B.Live(s.bridge, k);
  }

  lemma ChunkRead(line: Upward, chunk: Bytes, wire: Bytes)
    requires line.wire == chunk + wire
    ensures (line.buffer + chunk) + (wire + line.pending) == LineBytes(line)
  {
  }

  lemma UpTaken(s: System, a: N.System, o: ClientId, s': System, a': N.System, line: Upward, codec: Codec<Message>)
    requires UpCarried(s, a, codec) && s'.up == s.up[o := line]
    requires line.buffer + (line.wire + line.pending) == FramesFrom(a'.up, o, codec.serialize)
    requires forall j :: j != o ==> FramesFrom(a'.up, j, codec.serialize) == FramesFrom(a.up, j, codec.serialize)
    ensures UpCarried(s', a', codec)
  {
    hide FramesFrom;
    Assoc(line.buffer, line.wire, line.pending);
    forall k ensures UpBytes(s', k) == FramesFrom(a'.up, k, codec.serialize) {
      assert UpBytes(s, k) == FramesFrom(a.up, k, codec.serialize);
    }
  }

  lemma DownStays(s: System, a: N.System, s': System, a': N.System, codec: Codec<Message>)
    requires DownCarried(s, a, codec) && a'.down == a.down && s'.taken == s.taken
    requires s'.bridge.written == s.bridge.written && s'.bridge.pending == s.bridge.pending
    ensures DownCarried(s', a', codec)
  {
    hide B.FramesTo, B.BytesOf;
    assert forall k :: DownBytes(s', k) == DownBytes(s, k) && Taken(s', k) == Taken(s, k);
  }

  // ---------- Inside ----------

  /** The network around a step that has nothing to do with connections. */
  function Around(a: N.System, r: N.System): N.System {
    r.(bridge := a.bridge + r.bridge, live := a.live, nextSerial := a.nextSerial, down := a.down, up := a.up + r.up)
  }

  ghost predicate SameInside(q: N.System, a: N.System) {
    && q.bridge == [] && q.up == []
    && a == q.(bridge := a.bridge, live := a.live, nextSerial := a.nextSerial, down := a.down, up := a.up)
  }

  /** A step that has nothing to do with connections does not look at what is on its way. */
  lemma InsideNext(q: N.System, e: N.Step, r: N.System, a: N.System)
    requires IsInside(e) && SameInside(q, a) && N.Next(q, e, r)
    ensures N.Next(a, e, Around(a, r))
  {
    hide S.Handles, L.Handled, N.Answering, N.Spawning, N.Cancelling, N.Outgoing;
    match e
    case ServerTurns =>
      hide SameInside, Around;
      TurnInside(q, r, a);
    case CalleeActs(i, op) =>
      hide C.StateAfter, C.Emission;
      assert N.CalleeEvent(a, i, op) == N.CalleeEvent(q, i, op);
      NoneSent(a);
    case LoopTurns(i) =>
      assert a.bridge + [] == a.bridge;
      var sent := N.Outgoing(q.loopQueue[i].client,
          L.Handled(q.loops[q.loopQueue[i].client].state, q.loopQueue[i].command, |q.callees|).sent);
      assert [] + sent == sent;
    case _ => NoneSent(a);
  }

  lemma TurnInside(q: N.System, r: N.System, a: N.System)
    requires SameInside(q, a) && N.Next(q, N.ServerTurns, r)
    ensures N.Next(a, N.ServerTurns, Around(a, r))
  {
    hide S.Handles;
    var o :| S.Handles(q.server, q.inbox[0], o) && r == N.ServerTurned(q, o);
    assert [] + o.sent == o.sent;
    NoneSent(a);
    assert Around(a, r) == N.ServerTurned(a, o);
  }

  lemma NoneSent(a: N.System)
    ensures a.bridge + [] == a.bridge && a.up + [] == a.up
  {
  }

  lemma {:induction false} QueuedParts(s: System, items: seq<N.UpItem>, serialize: Message -> Bytes, k: ClientId)
    ensures Queued(s, items, serialize) == s.(up := Queued(s, items, serialize).up)
    ensures UpBytes(Queued(s, items, serialize), k) == UpBytes(s, k) + FramesFrom(items, k, serialize)
    decreases |items|
  {
    if items == [] {
      assert UpBytes(s, k) + [] == UpBytes(s, k);
    } else {
      var line, frame := Up(s, items[0].client), Frame(serialize(items[0].message));
      var s1 := s.(up := s.up[items[0].client := line.(pending := line.pending + frame)]);
      QueuedParts(s1, items[1..], serialize, k);
      hide Frame, FlatMap;
      QueuedOne(s, line, s1, items, k, serialize);
    }
  }

  lemma QueuedOne(s: System, line: Upward, s1: System, items: seq<N.UpItem>, k: ClientId, serialize: Message -> Bytes)
    requires items != [] && line == Up(s, items[0].client)
    requires s1 == s.(up := s.up[items[0].client :=
                                   line.(pending := line.pending + Frame(serialize(items[0].message)))])
    ensures UpBytes(s1, k) + FramesFrom(items[1..], k, serialize) == UpBytes(s, k) + FramesFrom(items, k, serialize)
  {
    hide Frame;
    var frame, rest := Frame(serialize(items[0].message)), FramesFrom(items[1..], k, serialize);
    assert FramesFrom(items, k, serialize) == FrameFrom(k, serialize)(items[0]) + rest;
    if items[0].client == k {
      Assoc(line.buffer + line.wire, line.pending, frame);
      Assoc(UpBytes(s, k), frame, rest);
    } else {
      assert [] + rest == rest;
    }
  }

  lemma {:induction false} DatasOf(queue: seq<B.Command>, sent: seq<SendData>)
    ensures Datas(queue + SendDatas(sent)) == Datas(queue) + sent
    decreases |sent|
  {
    if sent == [] {
      assert queue + SendDatas(sent) == queue;
    } else {
      var front, last := DropLast(sent), LastOf(sent);
      assert SendDatas(sent) == SendDatas(front) + [B.SendData(last.receiver, last.message)];
      assert queue + SendDatas(sent) == (queue + SendDatas(front)) + [B.SendData(last.receiver, last.message)];
      DatasOf(queue, front);
      DatasMore(queue + SendDatas(front), B.SendData(last.receiver, last.message));
      assert sent == front + [last];
    }
  }

  lemma UpQueued(s: System, a: N.System, items: seq<N.UpItem>, a': N.System, codec: Codec<Message>)
    requires UpCarried(s, a, codec) && a'.up == a.up + items
    ensures UpCarried(Queued(s, items, codec.serialize), a', codec)
  {
    hide UpBytes, FlatMap;
    forall k ensures UpBytes(Queued(s, items, codec.serialize), k) == FramesFrom(a'.up, k, codec.serialize) {
      QueuedParts(s, items, codec.serialize, k);
      FlatMapConcat(a.up, items, FrameFrom(k, codec.serialize));
      assert UpBytes(s, k) == FramesFrom(a.up, k, codec.serialize);
    }
  }

  lemma HandedParts(s: System, r: N.System, serialize: Message -> Bytes)
    ensures var s' := Handed(s, r, serialize);
            && s'.rest == r.(bridge := [], up := []) && s'.taken == s.taken
            && s'.bridge == s.bridge.(queue := s.bridge.queue + SendDatas(r.bridge))
  {
    hide Queued;
    QueuedParts(s.(rest := r.(bridge := [], up := []),
                   bridge := s.bridge.(queue := s.bridge.queue + SendDatas(r.bridge))),
                r.up, serialize, ClientId(0, 0));
  }

  lemma InsideRefines(s: System, a: N.System, e: N.Step, r: N.System, codec: Codec<Message>)
    requires Carries(s, a, codec) && IsInside(e) && N.Next(s.rest, e, r)
    ensures N.Next(a, e, Around(a, r)) && Carries(Handed(s, r, codec.serialize), Around(a, r), codec)
  {
    hide N.Next, Datas, DownCarried, UpCarried, IsInside, Queued;
    InsideNext(s.rest, e, r, a);
    HandedParts(s, r, codec.serialize);
    InsideCarried(s, a, r, Handed(s, r, codec.serialize), codec);
  }

  lemma InsideCarried(s: System, a: N.System, r: N.System, s': System, codec: Codec<Message>)
    requires Carries(s, a, codec) && s' == Handed(s, r, codec.serialize)
    requires s'.rest == r.(bridge := [], up := []) && s'.taken == s.taken
    requires s'.bridge == s.bridge.(queue := s.bridge.queue + SendDatas(r.bridge))
    ensures Carries(s', Around(a, r), codec)
  {
    hide Datas, DownCarried, Queued, UpCarried;
    var a' := Around(a, r);
    DatasOf(s.bridge.queue, r.bridge);
    DownStays(s, a, s', a', codec);
    var handed := s.(rest := r.(bridge := [], up := []),
                     bridge := s.bridge.(queue := s.bridge.queue + SendDatas(r.bridge)));
    UpStays(s, a, handed, a, codec);
    UpQueued(handed, a, r.up, a', codec);
    assert forall k :: B.Live(s'.bridge, k) <==> B.Live(s.bridge, k);
  }

  // ---------- Readers kept apart ----------

  /** Every read job reads the socket of the client it speaks for. */
  ghost predicate JobsOwn(b: B.Bridge) {
    forall j :: j in b.readJobs ==> j.clientId == j.reader
  }

  ghost predicate Sound(b: B.Bridge) {
    B.Identified(b) && B.ReadersThere(b) && B.ReadersKnown(b) && B.OwnReaders(b) && JobsOwn(b)
  }

  lemma JobsOwnStep(b: B.Bridge, e: B.Step, b': B.Bridge, serialize: Message -> Bytes)
    requires JobsOwn(b) && B.OwnReaders(b) && B.Next(b, e, b', serialize)
    ensures JobsOwn(b')
  {
    hide Frame, WriteMoves, B.AsCommands, B.BytesOf, B.Reads;
    match e
    case Notifies =>
    case ReadEnds(job, _) => assert forall j :: j in Remove(b.readJobs, job) ==> j in b.readJobs;
    case _ =>
  }

  lemma SoundStep(b: B.Bridge, e: B.Step, b': B.Bridge, serialize: Message -> Bytes)
    requires Sound(b) && B.Next(b, e, b', serialize) && (e.Connects? ==> !B.Outstanding(b, e.token))
    ensures Sound(b')
  {
    hide B.Next, B.Identified, B.ReadersThere, B.ReadersKnown, B.OwnReaders, JobsOwn, B.Outstanding;
    B.NextKeepsIdentified(b, e, b', serialize);
    B.ReadersKnownStep(b, e, b', serialize);
    B.OwnReadersIff(b, e, b', serialize);
    JobsOwnStep(b, e, b', serialize);
  }

  lemma SoundMore(b: B.Bridge, sent: seq<SendData>)
    requires Sound(b) && forall i :: 0 <= i < |sent| ==> sent[i].receiver.serial < b.nextSerial
    ensures Sound(b.(queue := b.queue + SendDatas(sent)))
  {
    var b' := b.(queue := b.queue + SendDatas(sent));
    forall t, r ensures B.Reads(b', t, r) <==> B.Reads(b, t, r) {
      assert forall c :: c in b'.queue ==> c in b.queue || c.SendData?;
    }
    hide B.Reads;
  }

  lemma {:induction false} AlwaysKnown(steps: seq<N.Step>, a: N.System)
    requires N.Reaches(steps, a)
    ensures NB.Known(a)
    decreases |steps|
  {
    if steps != [] {
      hide NB.Known, N.Next;
      var a0 := N.ReachesLast(steps, a);
      AlwaysKnown(DropLast(steps), a0);
      NB.StepKnown(a0, LastOf(steps), a);
    }
  }

  /** The server sends only to clients that have connected. */
  lemma ReceiversKnown(a: N.System)
    requires N.Reached(a)
    ensures forall i :: 0 <= i < |a.bridge| ==> a.bridge[i].receiver.serial < a.nextSerial
  {
    var steps :| N.Reaches(steps, a);
    AlwaysKnown(steps, a);
    NT.AlwaysInvariant(steps, a, "");
    hide NI.Good, N.Reaches;
  }

  // ---------- The refinement ----------

  /** A step over the bytes that keeps the readers apart is made of steps of the network. */
  lemma StepRefines(s: System, a: N.System, step: Wire.Step, s': System, codec: Codec<Message>)
    requires Faithful(codec) && Carries(s, a, codec) && Sound(s.bridge) && Wire.Next(s, step, s', codec)
    ensures exists a' :: Later(a, a') && Carries(s', a', codec)
  {
    hide Faithful, Carries, Later;
    match step
    case EventLoop(e) =>
      hide Wire.Next;
      EventRefines(s, a, e, s', codec);
    case ReadJobEnds(job, messages) =>
      hide JobReads;
      assert s.bridge.readJobs[job] in s.bridge.readJobs;
      ReadJobRefines(s, a, job, messages, s', codec);
    case ClientReads(k) =>
      hide Wire.Next;
      ClientReadRefines(s, a, k, s', codec);
    case ClientWrites(k, n) =>
      ClientWriteRefines(s, a, k, n, codec);
      LaterNone(a);
    case Inside(e) =>
      hide IsInside;
      var r :| N.Next(s.rest, e, r) && s' == Handed(s, r, codec.serialize);
      InsideRefines(s, a, e, r, codec);
      LaterOne(a, e, Around(a, r));
  }

  lemma StepSound(s: System, a: N.System, step: Wire.Step, s': System, codec: Codec<Message>)
    requires N.Reached(a) && Carries(s, a, codec) && Sound(s.bridge)
    requires Wire.Next(s, step, s', codec) && StepApart(s, step)
    ensures Sound(s'.bridge)
  {
    hide Carries, Sound, B.Next, N.Reached, N.Next;
    match step
    case EventLoop(e) => SoundStep(s.bridge, e, s'.bridge, codec.serialize);
    case ReadJobEnds(job, messages) =>
      hide JobReads;
      SoundEnds(s.bridge, job, messages, codec.serialize);
    case Inside(e) =>
      hide IsInside;
      InsideSound(s, a, e, s', codec);
    case _ =>
  }

  lemma SoundEnds(b: B.Bridge, job: nat, messages: seq<Message>, serialize: Message -> Bytes)
    requires Sound(b) && job < |b.readJobs|
    ensures Sound(B.ReadEnded(b, job, messages))
  {
    hide Sound;
    SoundStep(b, B.ReadEnds(job, messages), B.ReadEnded(b, job, messages), serialize);
  }

  lemma InsideSound(s: System, a: N.System, e: N.Step, s': System, codec: Codec<Message>)
    requires N.Reached(a) && Carries(s, a, codec) && Sound(s.bridge) && Wire.Next(s, Inside(e), s', codec)
    ensures Sound(s'.bridge)
  {
    hide N.Next, Sound, IsInside, Handed, N.Reached, Carries, Around;
    var r :| N.Next(s.rest, e, r) && s' == Handed(s, r, codec.serialize);
    InsideRefines(s, a, e, r, codec);
    N.ReachedNext(a, e, Around(a, r));
    HandedParts(s, r, codec.serialize);
    InsideKnown(s, a, r, codec);
    SoundMore(s.bridge, r.bridge);
  }

  lemma InsideKnown(s: System, a: N.System, r: N.System, codec: Codec<Message>)
    requires Carries(s, a, codec) && N.Reached(Around(a, r))
    ensures forall i :: 0 <= i < |r.bridge| ==> r.bridge[i].receiver.serial < s.bridge.nextSerial
  {
    hide N.Reached, Datas, DownCarried, UpCarried;
    ReceiversKnown(Around(a, r));
    forall i | 0 <= i < |r.bridge| ensures r.bridge[i].receiver.serial < s.bridge.nextSerial {
      assert (a.bridge + r.bridge)[|a.bridge| + i] == r.bridge[i];
    }
  }

  lemma StartCarries(codec: Codec<Message>)
    ensures Carries(INITIAL_WIRE, N.INITIAL_SYSTEM, codec) && Sound(INITIAL_WIRE.bridge)
  {
  }

  lemma {:induction false} WireCarries(states: seq<System>, steps: seq<Wire.Step>, k: nat, codec: Codec<Message>)
    requires Faithful(codec) && Wire.Trace(states, steps, codec) && KeepsApart(states, steps) && k <= |steps|
    ensures Sound(states[k].bridge) && exists a :: N.Reached(a) && Carries(states[k], a, codec)
    decreases k
  {
    hide Wire.Next, Sound, Carries, Faithful, N.Reached, Later, StepApart;
    if k == 0 {
      StartCarries(codec);
      N.ReachedAtStart();
    } else {
      WireCarries(states, steps, k - 1, codec);
      var a :| N.Reached(a) && Carries(states[k - 1], a, codec);
      var s, step, s' := states[k - 1], steps[k - 1], states[k - 1 + 1];
      assert Wire.Next(s, step, s', codec);
      StepRefines(s, a, step, s', codec);
      StepSound(s, a, step, s', codec);
      var a' :| Later(a, a') && Carries(s', a', codec);
      LaterReached(a, a');
    }
  }

  lemma LaterReached(a: N.System, a': N.System)
    requires N.Reached(a) && Later(a, a')
    ensures N.Reached(a')
  {
    hide N.Reached, Goes;
    var steps: seq<N.Step> :| Goes(a, steps, a');
    GoesReached(a, steps, a');
  }
}
