/**
 What holds over the bytes: streaming, in every run that keeps the readers apart; and what goes wrong in
 one that does not.
 */
module WireTheorems {
  import opened Wrappers
  import opened Rpc
  import opened Sequences
  import opened Ipc
  import opened IpcBridgeHandler
  import opened CallProtocol
  import opened NetworkInvariant
  import opened NetworkTheorems
  import opened Wire
  import opened WireRefinement
  import B = IpcBridge
  import N = Network
  import S = Swiboe
  import L = RpcLoop

  /** What was received is a first part of what was emitted, and all of it once it ends. */
  ghost predicate Streamed(emitted: seq<Emission>, received: seq<ResponseKind>) {
    && WellEmitted(emitted) && FinalOnlyLast(received)
    && Partials(received) <= Partials(EmittedKinds(emitted))
    && (Lasts(received) > 0 ==>
          && Partials(received) == Partials(EmittedKinds(emitted))
          && (emitted != [] ==> LastOf(received) == Last(NotHandled) || LastOf(received) == LastOf(emitted).kind))
  }

  /**
   Streaming, over the bytes. In every run over the real connections that keeps the readers apart,
   however the bytes are cut and whenever events come: what a caller's context has received is a first
   part of the handlers' partial results in order, then at most one final response and nothing behind
   it; with the final response nothing is missing, and every procedure of the call has ended.
   */
  lemma StreamingOverWire(states: seq<Wire.System>, steps: seq<Wire.Step>, c: string, codec: Codec<Message>)
    requires Faithful(codec) && Wire.Trace(states, steps, codec) && KeepsApart(states, steps)
    ensures var s := states[|steps|].rest;
            && Streamed(EmittedFor(s, c), Received(s.callers, c))
            && (FinalsReceived(s, c) > 0 ==> AliveFor(s.callees, c) == map[] && FinalsReceived(s, c) == 1)
  {
    hide Wire.Next, KeepsApart, Faithful, N.Reached, Streamed;
    WireCarries(states, steps, |steps|, codec);
    var a :| N.Reached(a) && Carries(states[|steps|], a, codec);
    SameCalls(states[|steps|], a, c, codec);
    StreamedReached(a, c);
  }

  lemma SameCalls(s: Wire.System, a: N.System, c: string, codec: Codec<Message>)
    requires Carries(s, a, codec)
    ensures EmittedFor(s.rest, c) == EmittedFor(a, c) && Received(s.rest.callers, c) == Received(a.callers, c)
    ensures FinalsReceived(s.rest, c) == FinalsReceived(a, c) && s.rest.callees == a.callees
  {
    hide DownCarried, UpCarried, Datas;
  }

  lemma StreamedReached(a: N.System, c: string)
    requires N.Reached(a)
    ensures Streamed(EmittedFor(a, c), Received(a.callers, c))
    ensures FinalsReceived(a, c) > 0 ==> AliveFor(a.callees, c) == map[] && FinalsReceived(a, c) == 1
  {
    var steps :| N.Reaches(steps, a);
    hide N.Reaches;
    Streaming(steps, a, c);
    if FinalsReceived(a, c) > 0 {
      AnsweredIsOver(steps, a, c);
    }
  }

  // ---------- A call under another's name ----------

  /** Client `k` has connected, made a call, and its writer has the frame. */
  lemma Calls(k: ClientId, call: Call, codec: Codec<Message>) returns (s: Wire.System)
    requires k.serial == 1
    ensures Wire.Reached(s, codec) && s.bridge == B.NewClient(B.NEW_BRIDGE, k.token)
    ensures s.rest.callers == map[call.context := N.Caller(k, [])]
    ensures Up(s, k) == Upward(Frame(codec.serialize(Message.RpcCall(call))), [], [])
  {
    hide Wire.Reached, Frame;
    Wire.ReachedAtStart(codec);
    var s1 := BridgeMoved(INITIAL_WIRE, B.Connects(k.token), B.NewClient(B.NEW_BRIDGE, k.token));
    Wire.ReachedNext(INITIAL_WIRE, EventLoop(B.Connects(k.token)), s1, codec);
    var r2 := N.AppCalled(s1.rest, k, call);
    var s2 := Handed(s1, r2, codec.serialize);
    Wire.ReachedNext(s1, Inside(N.AppCalls(k, call)), s2, codec);
    assert s2.bridge.queue == [];
    var r3 := N.LoopTurned(s2.rest, 0);
    LoopSends(s2.rest, k, call);
    s := Handed(s2, r3, codec.serialize);
    Wire.ReachedNext(s2, Inside(N.LoopTurns(0)), s, codec);
    QueuedSingle(s2.(rest := r3.(bridge := [], up := []), bridge := s2.bridge.(queue := [])), k,
                 Message.RpcCall(call), codec);
  }

  lemma LoopSends(r: N.System, k: ClientId, call: Call)
    requires r.loopQueue == [N.LoopItem(k, L.OutgoingCall(call.context, call.context, Message.RpcCall(call)))]
    requires r.up == [] && r.bridge == [] && k in r.loops && r.loops[k].running
    ensures var r' := N.LoopTurned(r, 0);
            && r'.up == [N.UpItem(k, Message.RpcCall(call))] && r'.bridge == [] && r'.callers == r.callers
  {
    assert [Message.RpcCall(call)][1..] == [];
    assert N.Outgoing(k, [Message.RpcCall(call)]) == [N.UpItem(k, Message.RpcCall(call))];
  }

  lemma QueuedSingle(s: Wire.System, k: ClientId, m: Message, codec: Codec<Message>)
    ensures var line := Up(s, k);
            Queued(s, [N.UpItem(k, m)], codec.serialize)
            == s.(up := s.up[k := line.(pending := line.pending + Frame(codec.serialize(m)))])
  {
    assert [N.UpItem(k, m)][1..] == [];
  }

  /** The connection at the token of `k`, the read job and the bytes. */
  ghost predicate Stands(s: Wire.System, k: ClientId, callers: map<string, N.Caller>, c: B.Connection,
                         jobs: seq<B.ReadJob>, line: Upward) {
    && s.rest.callers == callers && Up(s, k) == line
    && k.token in s.bridge.connections && s.bridge.connections[k.token] == c && s.bridge.readJobs == jobs
    && s.bridge.queue == [] && s.bridge.nextSerial == 1 + c.clientId.serial
  }

  /** The client writes the first byte, and a read job starts. */
  lemma JobStarts(s: Wire.System, k: ClientId, frame: Bytes, codec: Codec<Message>) returns (s': Wire.System)
    requires Wire.Reached(s, codec) && |frame| > 0
    requires Stands(s, k, s.rest.callers, B.Connection(k, B.Held(k), true, true), [], Upward(frame, [], []))
    ensures Wire.Reached(s', codec)
    ensures Stands(s', k, s.rest.callers, B.Connection(k, B.Taken, false, true), [B.ReadJob(k.token, k, k)],
                   Upward(frame[1..], frame[..1], []))
  {
    hide Wire.Reached;
    var s1 := Written(s, k, 1);
    Wire.ReachedNext(s, ClientWrites(k, 1), s1, codec);
    var e := B.Readies(k.token, true, false, false);
    s' := BridgeMoved(s1, e, B.Ready(s1.bridge, k.token, true, false, false));
    Wire.ReachedNext(s1, EventLoop(e), s', codec);
    assert [] + frame[..1] == frame[..1];
  }

  /** The client writes the rest of its frame. */
  lemma RestWritten(s: Wire.System, k: ClientId, frame: Bytes, codec: Codec<Message>) returns (s': Wire.System)
    requires Wire.Reached(s, codec) && |frame| > 0
    requires Stands(s, k, s.rest.callers, B.Connection(k, B.Taken, false, true), [B.ReadJob(k.token, k, k)],
                    Upward(frame[1..], frame[..1], []))
    ensures Wire.Reached(s', codec)
    ensures Stands(s', k, s.rest.callers, B.Connection(k, B.Taken, false, true), [B.ReadJob(k.token, k, k)],
                   Upward([], frame, []))
  {
    hide Wire.Reached;
    var rest, n := frame[1..], |frame| - 1;
    WholeRest(frame, rest, n);
    s' := Written(s, k, n);
    WrittenNext(s, k, n, codec);
  }

  lemma WrittenNext(s: Wire.System, k: ClientId, n: nat, codec: Codec<Message>)
    requires Wire.Reached(s, codec) && n <= |Up(s, k).pending|
    ensures Wire.Reached(Written(s, k, n), codec)
  {
    hide Wire.Reached;
    Wire.ReachedNext(s, ClientWrites(k, n), Written(s, k, n), codec);
  }

  lemma WholeRest(frame: Bytes, rest: Bytes, n: nat)
    requires |frame| == n + 1 && rest == frame[1..]
    ensures rest[..n] == rest && rest[n..] == [] && frame[..1] + rest == frame
  {
  }

  /** It hangs up. */
  lemma HangsUp(s: Wire.System, k: ClientId, line: Upward, codec: Codec<Message>) returns (s': Wire.System)
    requires Wire.Reached(s, codec)
    requires Stands(s, k, s.rest.callers, B.Connection(k, B.Taken, false, true), [B.ReadJob(k.token, k, k)], line)
    ensures Wire.Reached(s', codec) && s'.rest.callers == s.rest.callers && Up(s', k) == line
    ensures k.token !in s'.bridge.connections && s'.bridge.readJobs == s.bridge.readJobs
    ensures s'.bridge.queue == [] && s'.bridge.nextSerial == s.bridge.nextSerial
  {
    hide Wire.Reached;
    var e := B.Readies(k.token, false, false, true);
    s' := BridgeMoved(s, e, B.Ready(s.bridge, k.token, false, false, true));
    Wire.ReachedNext(s, EventLoop(e), s', codec);
  }

  /** The client writes the rest and hangs up, and the next client gets its token. */
  lemma TokenPasses(s: Wire.System, k: ClientId, k': ClientId, frame: Bytes, codec: Codec<Message>)
    returns (s': Wire.System)
    requires Wire.Reached(s, codec) && |frame| > 0 && k'.token == k.token && k'.serial == k.serial + 1
    requires Stands(s, k, s.rest.callers, B.Connection(k, B.Taken, false, true), [B.ReadJob(k.token, k, k)],
                    Upward(frame[1..], frame[..1], []))
    ensures Wire.Reached(s', codec)
    ensures Stands(s', k, s.rest.callers, B.Connection(k', B.Held(k'), true, true), [B.ReadJob(k.token, k, k)],
                   Upward([], frame, []))
  {
    hide Wire.Reached;
    var s1 := RestWritten(s, k, frame, codec);
    var s2 := HangsUp(s1, k, Upward([], frame, []), codec);
    s' := BridgeMoved(s2, B.Connects(k.token), B.NewClient(s2.bridge, k.token));
    Wire.ReachedNext(s2, EventLoop(B.Connects(k.token)), s', codec);
  }

  /** The job, which had seen the first byte only, ends, and its reader goes to the next client. */
  lemma ReaderPasses(s: Wire.System, k: ClientId, k': ClientId, frame: Bytes, codec: Codec<Message>)
    returns (s': Wire.System)
    requires Wire.Reached(s, codec) && |frame| > 0
    requires Stands(s, k, s.rest.callers, B.Connection(k', B.Held(k'), true, true), [B.ReadJob(k.token, k, k)],
                    Upward([], frame, []))
    ensures Wire.Reached(s', codec)
    ensures Stands(s', k, s.rest.callers, B.Connection(k', B.Held(k), true, true), [],
                   Upward([], frame[1..], frame[..1]))
  {
    hide Wire.Reached;
    var line := Upward([], frame[1..], frame[..1]);
    assert frame == frame[..1] + frame[1..] && [] + frame[..1] == frame[..1];
    assert JobReads(Up(s, k), frame[..1], [], line, codec);
    var s1 := JobEnded(s, 0, [], line);
    Wire.ReachedNext(s, ReadJobEnds(0, []), s1, codec);
    var b := B.Notify(s1.bridge.(queue := s1.bridge.queue[1..]), s1.bridge.queue[0], codec.serialize);
    s' := BridgeMoved(s1, B.Notifies, b);
    Wire.ReachedNext(s1, EventLoop(B.Notifies), s', codec);
  }

  /** A read job for the next client reads what the first one has written. */
  lemma CallPasses(s: Wire.System, k: ClientId, k': ClientId, call: Call, codec: Codec<Message>)
    returns (s': Wire.System)
    requires Faithful(codec) && Wire.Reached(s, codec)
    requires var frame := Frame(codec.serialize(Message.RpcCall(call)));
             Stands(s, k, s.rest.callers, B.Connection(k', B.Held(k), true, true), [],
                    Upward([], frame[1..], frame[..1]))
    ensures Wire.Reached(s', codec) && s'.rest.callers == s.rest.callers
    ensures S.RpcCall(k', call) in s'.rest.inbox
  {
    hide Wire.Reached;
    var m := Message.RpcCall(call);
    var frame := Frame(codec.serialize(m));
    var e := B.Readies(k.token, true, false, false);
    var s1 := BridgeMoved(s, e, B.Ready(s.bridge, k.token, true, false, false));
    Wire.ReachedNext(s, EventLoop(e), s1, codec);
    assert Up(s1, k) == Up(s, k);
    RestRead(m, codec);
    assert JobReads(Up(s1, k), frame[1..], [m], Upward([], [], []), codec);
    s' := JobEnded(s1, 0, [m], Upward([], [], []));
    Wire.ReachedNext(s1, ReadJobEnds(0, [m]), s', codec);
    var told := B.ReadEnded(s1.bridge, 0, [m]).toServer[|s1.bridge.toServer|..];
    assert told == B.AsCommands(k', [m]) == [S.RpcCall(k', call)];
    assert s'.rest.inbox[|s1.rest.inbox|] == S.RpcCall(k', call);
  }

  lemma RestRead(m: Message, codec: Codec<Message>)
    requires Faithful(codec)
    ensures var frame := Frame(codec.serialize(m));
            && frame[1..] == frame[1..] + [] && Drains(codec, frame[..1] + frame[1..], [m], [])
            && Unframe([]) == None
  {
    var frame := Frame(codec.serialize(m));
    assert frame[..1] + frame[1..] == frame + [];
    UnframeFrame(codec.serialize(m), []);
    assert [m][1..] == [];
  }

  /**
   Without that condition it fails. A state that a run over the connections reaches, for any call: only
   the first client of a token has made it, and the server's queue holds it as a call of the second.
   */
  lemma ForeignCall(token: nat, call: Call, codec: Codec<Message>)
    requires Faithful(codec)
    ensures exists s :: Wire.Reached(s, codec)
                        && s.rest.callers == map[call.context := N.Caller(ClientId(1, token), [])]
                        && S.RpcCall(ClientId(2, token), call) in s.rest.inbox
  {
    hide Wire.Reached, Frame;
    var k, k' := ClientId(1, token), ClientId(2, token);
    var frame := Frame(codec.serialize(Message.RpcCall(call)));
    assert |frame| > 0 by { hide *; FrameThere(codec.serialize(Message.RpcCall(call))); }
    var s1 := Calls(k, call, codec);
    var s2 := JobStarts(s1, k, frame, codec);
    var s3 := TokenPasses(s2, k, k', frame, codec);
    var s4 := ReaderPasses(s3, k, k', frame, codec);
    var s5 := CallPasses(s4, k, k', call, codec);
  }
}
