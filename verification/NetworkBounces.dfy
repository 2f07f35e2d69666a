/**
 Offers that cannot be delivered. The bridge tells the server of a disconnection before it returns
 anything it could not deliver to that client; so when an offer bounces, the client's handlers are gone
 already, and the chain of handlers ends there.
 */
module NetworkBounces {
  import opened Wrappers
  import opened Rpc
  import opened Sequences
  import opened ApiTables
  import S = Swiboe
  import L = RpcLoop
  import C = CalleeContext
  import R = ServerRun
  import opened CallProtocol
  import opened Network
  import opened NetworkInvariant
  import opened NetworkServer
  import opened NetworkBudget
  import opened NetworkRuns
  import opened Dispatch

  // ---------- Whom the parts know ----------

  predicate CommandKnown(x: S.Command, loops: map<ClientId, Loop>) {
    match x
    case RpcCall(k, _) => k in loops
    case NewRpc(k, _, _) => k in loops
    case _ => true
  }

  ghost predicate TableKnown(t: Table, loops: map<ClientId, Loop>) {
    forall name, info :: info in Infos(t, name) ==> info.clientId in loops
  }

  ghost predicate ServerKnown(server: S.State, loops: map<ClientId, Loop>) {
    && TableKnown(server.apiTable, loops)
    && forall c :: c in server.runningRpcs ==>
         server.runningRpcs[c].caller in loops && server.runningRpcs[c].callee in loops
  }

  ghost predicate SentKnown(sent: seq<SendData>, loops: map<ClientId, Loop>) {
    forall i :: 0 <= i < |sent| ==> sent[i].receiver in loops
  }

  ghost predicate InboxKnown(inbox: seq<S.Command>, loops: map<ClientId, Loop>) {
    forall i :: 0 <= i < |inbox| ==> CommandKnown(inbox[i], loops)
  }

  ghost predicate UpKnown(up: seq<UpItem>, loops: map<ClientId, Loop>) {
    forall i :: 0 <= i < |up| ==> up[i].client in loops
  }

  /** Only clients that have connected are ever mentioned. */
  ghost predicate Known(s: System) {
    && UpKnown(s.up, s.loops) && InboxKnown(s.inbox, s.loops) && ServerKnown(s.server, s.loops)
    && SentKnown(s.bridge, s.loops)
  }

  lemma HandlesKnown(server: S.State, x: S.Command, o: S.Outcome, loops: map<ClientId, Loop>)
    requires S.Handles(server, x, o) && ServerKnown(server, loops) && CommandKnown(x, loops)
    ensures ServerKnown(o.state, loops) && SentKnown(o.sent, loops) && InboxKnown(o.enqueued, loops)
  {
    match x
    case NewRpc(k, name, priority) =>
      R.RegisteredMembers(server.apiTable, name, ApiInfo(k, priority), o.state.apiTable);
    case ClientDisconnected(k) =>
      forall name, info | info in Infos(o.state.apiTable, name) ensures info.clientId in loops {
        RetainedMembers(Infos(server.apiTable, name), k, info);
      }
    case RpcCall(caller, call) => FirstKnown(server.apiTable, call.function_, loops);
    case RpcResponse(r) => ResponseKnown(server, r, loops);
    case SendDataFailed(_, RpcCall(call)) => ResponseKnown(server, Response(call.context, Last(NotHandled)), loops);
    case _ =>
  }

  lemma FirstKnown(t: Table, name: string, loops: map<ClientId, Loop>)
    requires TableKnown(t, loops)
    ensures GetFirst(t, name).Some? ==> GetFirst(t, name).value.clientId in loops
  {
    assert GetFirst(t, name).Some? ==> GetFirst(t, name).value in Infos(t, name);
  }

  lemma ResponseKnown(server: S.State, r: Response, loops: map<ClientId, Loop>)
    requires ServerKnown(server, loops)
    ensures ServerKnown(S.OnRpcResponse(server, r).state, loops) && SentKnown(S.OnRpcResponse(server, r).sent, loops)
    ensures S.OnRpcResponse(server, r).enqueued == []
  {
    if r.context in server.runningRpcs {
      var rpc := server.runningRpcs[r.context];
      GetNextFollowsFirst(server.apiTable, rpc.rpcCall.function_, rpc.callee);
      var next := GetNext(server.apiTable, rpc.rpcCall.function_, rpc.callee);
      assert next.Some? ==> next.value in Infos(server.apiTable, rpc.rpcCall.function_);
    }
  }

  lemma MoreLoops(s: System, loops: map<ClientId, Loop>)
    requires Known(s) && s.loops.Keys <= loops.Keys
    ensures UpKnown(s.up, loops) && InboxKnown(s.inbox, loops)
    ensures ServerKnown(s.server, loops) && SentKnown(s.bridge, loops)
  {
    assert forall k :: k in s.loops ==> k in loops;
  }

  lemma TurnKnown(s: System, o: S.Outcome)
    requires Known(s) && Serves(s, o)
    ensures Known(ServerTurned(s, o))
  {
    HandlesKnown(s.server, s.inbox[0], o, s.loops);
    hide S.Handles, ServerKnown, CommandKnown;
  }

  lemma OutgoingKnown(k: ClientId, messages: seq<Message>, loops: map<ClientId, Loop>)
    requires k in loops
    ensures UpKnown(Outgoing(k, messages), loops)
  {
    if messages != [] {
      OutgoingKnown(k, messages[1..], loops);
    }
  }

  lemma LoopKnown(s: System, i: nat)
    requires Known(s) && i < |s.loopQueue| && s.loopQueue[i].client in s.loops
    ensures Known(LoopTurned(s, i))
  {
    var s', k := LoopTurned(s, i), s.loopQueue[i].client;
    assert s'.loops.Keys == s.loops.Keys;
    MoreLoops(s, s'.loops);
    OutgoingKnown(k, L.Handled(s.loops[k].state, s.loopQueue[i].command, |s.callees|).sent, s'.loops);
    hide ServerKnown, CommandKnown;
  }

  lemma StepKnown(s: System, step: Step, s': System)
    requires Known(s) && Next(s, step, s')
    ensures Known(s')
  {
    match step
    case Connect(k) =>
      hide ServerKnown;
      MoreLoops(s, s'.loops);
    case LoopTurns(i) =>
      hide Known;
      LoopKnown(s, i);
    case ServerTurns =>
      hide Known;
      var o := TurnOf(s, s');
      TurnKnown(s, o);
    case CalleeActs(i, op) =>
      CalleeQuiet(s, i, op);
      hide CalleeActed, UpKnown, InboxKnown, SentKnown, ServerKnown;
    case _ => hide ServerKnown, TableKnown;
  }

  // ---------- Disconnections come before what could not be delivered ----------

  ghost predicate LoggedGone(log: seq<S.Command>, k: ClientId, n: int) {
    exists d :: 0 <= d < n && d < |log| && log[d] == S.ClientDisconnected(k)
  }

  /** A client that has connected and is not live has its disconnection on the server's queue, and nothing
      is returned as undeliverable in front of it. */
  ghost predicate GoneFirst(s: System, r: R.Run) {
    && (forall k :: k in s.loops && k !in s.live ==> LoggedGone(r.log, k, |r.log|))
    && (forall p :: 0 <= p < |r.log| && r.log[p].SendDataFailed? ==> LoggedGone(r.log, r.log[p].clientId, p))
  }

  lemma GoneStays(log: seq<S.Command>, more: seq<S.Command>, k: ClientId, n: int)
    requires LoggedGone(log, k, n)
    ensures LoggedGone(log + more, k, n)
  {
    var d :| 0 <= d < n && d < |log| && log[d] == S.ClientDisconnected(k);
    assert (log + more)[d] == log[d];
  }

  /** The queue grows by commands that are no returned messages. */
  lemma GoneFirstGrows(s: System, r: R.Run, r': R.Run, more: seq<S.Command>, s': System)
    requires GoneFirst(s, r) && r'.log == r.log + more
    requires forall i :: 0 <= i < |more| && more[i].SendDataFailed? ==> LoggedGone(r.log, more[i].clientId, |r.log|)
    requires forall k :: k in s'.loops && k !in s'.live ==>
               (k in s.loops && k !in s.live) || S.ClientDisconnected(k) in more
    ensures GoneFirst(s', r')
  {
    forall k | k in s'.loops && k !in s'.live ensures LoggedGone(r'.log, k, |r'.log|) {
      if k in s.loops && k !in s.live {
        GoneStays(r.log, more, k, |r.log|);
      } else {
        var i :| 0 <= i < |more| && more[i] == S.ClientDisconnected(k);
        assert r'.log[|r.log| + i] == more[i];
      }
    }
    forall p | 0 <= p < |r'.log| && r'.log[p].SendDataFailed? ensures LoggedGone(r'.log, r'.log[p].clientId, p) {
      if p < |r.log| {
        GoneStays(r.log, more, r.log[p].clientId, p);
      } else {
        GoneStays(r.log, more, more[p - |r.log|].clientId, |r.log|);
      }
    }
  }

  lemma TurnGoneFirst(s: System, o: S.Outcome, r: R.Run)
    requires GoneFirst(s, r) && Serves(s, o)
    ensures GoneFirst(ServerTurned(s, o), R.Turned(r, o))
  {
    HandlesShape(s.server, s.inbox[0], o);
    hide S.Handles, GoneFirst, LoggedGone;
    GoneFirstGrows(s, r, R.Turned(r, o), o.enqueued, ServerTurned(s, o));
  }

  lemma StepGoneFirst(s: System, step: Step, s': System, r: R.Run)
    requires Sane(s) && Known(s) && GoneFirst(s, r) && Simulates(s, r) && Next(s, step, s') && !step.ServerTurns?
    ensures GoneFirst(s', RunAfter(s, step, s', r))
  {
    EnqueueSimulated(s, step, s', r);
    InboxGrows(s, step, s');
    NewCommands(s, step, s');
    var r' := RunAfter(s, step, s', r);
    var more := if |s.inbox| < |s'.inbox| then s'.inbox[|s.inbox|..] else [];
    hide Next, Simulates, LoggedGone;
    assert r'.log == r.log + more;
    assert forall i :: 0 <= i < |more| && more[i].SendDataFailed? ==> LoggedGone(r.log, more[i].clientId, |r.log|);
    GoneFirstGrows(s, r, r', more, s');
  }

  /** What a step puts on the server's queue about who is gone. */
  lemma NewCommands(s: System, step: Step, s': System)
    requires Sane(s) && Known(s) && Next(s, step, s') && !step.ServerTurns?
    ensures |s.inbox| < |s'.inbox| && s'.inbox[|s.inbox|].SendDataFailed? ==>
              s'.inbox[|s.inbox|].clientId in s.loops && s'.inbox[|s.inbox|].clientId !in s.live
    ensures forall k :: k in s'.loops && k !in s'.live ==>
              (k in s.loops && k !in s.live)
              || (|s.inbox| < |s'.inbox| && s'.inbox[|s.inbox|] == S.ClientDisconnected(k))
  {
    match step
    case LoopTurns(i) => hide SentKnown, InboxKnown, UpKnown, ServerKnown;
    case CalleeActs(i, op) =>
      CalleeQuiet(s, i, op);
      hide Sane, Known, CalleeActed;
    case _ => hide InboxKnown, UpKnown, ServerKnown;
  }

  lemma CalleeQuiet(s: System, i: nat, op: C.Op)
    requires i < |s.callees|
    ensures var s' := CalleeActed(s, i, op);
            && s'.inbox == s.inbox && s'.bridge == s.bridge && s'.up == s.up && s'.server == s.server
            && s'.loops == s.loops && s'.live == s.live
  {
  }

  // ---------- An offer on its way belongs to the entry ----------

  /** Every offer the bridge still has and every one it has returned went to the callee of the entry. */
  ghost predicate OfferTagged(s: System, c: string) {
    c in s.server.runningRpcs ==>
      && (forall i :: 0 <= i < |s.bridge| && SentOffer(c)(s.bridge[i]) != [] ==>
            s.bridge[i].receiver == s.server.runningRpcs[c].callee)
      && (forall i :: 0 <= i < |s.inbox| && InboxBounce(c)(s.inbox[i]) != [] ==>
            s.inbox[i].clientId == s.server.runningRpcs[c].callee)
  }

  lemma HandlesTag(server: S.State, x: S.Command, o: S.Outcome, c: string)
    requires S.Handles(server, x, o)
    requires forall d :: d in server.runningRpcs ==> server.runningRpcs[d].rpcCall.context == d
    ensures OfferedIn(o.sent, c) > 0 ==>
              |o.sent| == 1 && c in o.state.runningRpcs && o.state.runningRpcs[c].callee == o.sent[0].receiver
    ensures OfferedIn(o.sent, c) == 0 && c in o.state.runningRpcs ==>
              c in server.runningRpcs && o.state.runningRpcs[c].callee == server.runningRpcs[c].callee
  {
  }

  lemma TurnTagged(s: System, o: S.Outcome, c: string)
    requires Sane(s) && Good(s, c) && OfferTagged(s, c) && Serves(s, o)
    ensures OfferTagged(ServerTurned(s, o), c)
  {
    hide S.Handles, Good, Sane, OfferTagged, OfferedIn, Serves, ServerTurned;
    TurnEntry(s, o, c);
    if OfferedIn(o.sent, c) > 0 {
      ServerTurnsKeeps(s, o, c);
      NewOfferTagged(s, o, c);
    } else {
      OldOffersTagged(s, o, c);
    }
  }

  /** What a turn does to the entry. */
  lemma TurnEntry(s: System, o: S.Outcome, c: string)
    requires Sane(s) && Serves(s, o)
    ensures s.inbox != [] && |o.sent| <= 1 && |o.enqueued| <= 1
    ensures o.enqueued != [] ==> o.enqueued[0].Quit? || o.enqueued[0].NewRpc?
    ensures OfferedIn(o.sent, c) > 0 ==>
              |o.sent| == 1 && c in o.state.runningRpcs && o.state.runningRpcs[c].callee == o.sent[0].receiver
    ensures OfferedIn(o.sent, c) == 0 && c in o.state.runningRpcs ==>
              c in s.server.runningRpcs && o.state.runningRpcs[c].callee == s.server.runningRpcs[c].callee
  {
    hide S.Handles, OfferedIn;
    HandlesTag(s.server, s.inbox[0], o, c);
    HandlesShape(s.server, s.inbox[0], o);
  }

  lemma NewOfferTagged(s: System, o: S.Outcome, c: string)
    requires s.inbox != [] && |o.sent| == 1 && OfferedIn(o.sent, c) > 0 && Good(ServerTurned(s, o), c)
    requires c in o.state.runningRpcs && o.state.runningRpcs[c].callee == o.sent[0].receiver
    ensures OfferTagged(ServerTurned(s, o), c)
  {
    hide Good;
    OnlyOffer(s, o, c);
    assert ServerTurned(s, o).bridge == s.bridge + [o.sent[0]];
  }

  lemma OldOffersTagged(s: System, o: S.Outcome, c: string)
    requires OfferTagged(s, c) && s.inbox != [] && |o.sent| <= 1 && OfferedIn(o.sent, c) == 0
    requires |o.enqueued| <= 1 && (o.enqueued != [] ==> o.enqueued[0].Quit? || o.enqueued[0].NewRpc?)
    requires c in o.state.runningRpcs ==>
               c in s.server.runningRpcs && o.state.runningRpcs[c].callee == s.server.runningRpcs[c].callee
    ensures OfferTagged(ServerTurned(s, o), c)
  {
    var s' := ServerTurned(s, o);
    assert forall i :: |s.inbox| - 1 <= i < |s'.inbox| ==> s'.inbox[i] in o.enqueued;
    assert forall i :: 0 <= i < |s.inbox| - 1 ==> s'.inbox[i] == s.inbox[i + 1];
  }

  /** An offer that is sent is the only one. */
  lemma OnlyOffer(s: System, o: S.Outcome, c: string)
    requires s.inbox != [] && |o.sent| == 1 && OfferedIn(o.sent, c) > 0 && Good(ServerTurned(s, o), c)
    ensures forall i :: 0 <= i < |s.bridge| ==> SentOffer(c)(s.bridge[i]) == []
    ensures forall i :: 0 <= i < |ServerTurned(s, o).inbox| ==> InboxBounce(c)(ServerTurned(s, o).inbox[i]) == []
  {
    var s' := ServerTurned(s, o);
    assert CoreOf(s', c).offers <= 1;
    BridgeTurns(s.bridge, o.sent, c);
    hide FlatMap;
    assert |FlatMap(s.bridge, SentOffer(c))| == 0 && |FlatMap(s'.inbox, InboxBounce(c))| == 0;
    FlatMapEmpty(s.bridge, SentOffer(c));
    FlatMapEmpty(s'.inbox, InboxBounce(c));
  }

  lemma StepTagged(s: System, step: Step, s': System, c: string)
    requires OfferTagged(s, c) && Next(s, step, s') && !step.ServerTurns?
    ensures OfferTagged(s', c)
  {
    if !step.BridgeSends? {
      NothingOffered(s, step, s', c);
      hide Next;
    }
  }

  lemma NothingOffered(s: System, step: Step, s': System, c: string)
    requires Next(s, step, s') && !step.ServerTurns? && !step.BridgeSends?
    ensures s'.server == s.server && s'.bridge == s.bridge
    ensures s'.inbox == s.inbox
         || (|s'.inbox| == |s.inbox| + 1 && s'.inbox[..|s.inbox|] == s.inbox
             && InboxBounce(c)(s'.inbox[|s.inbox|]) == [])
  {
    InboxGrows(s, step, s');
  }

  // ---------- Along a run ----------

  lemma {:induction false} BouncesAlong(states: seq<System>, steps: seq<Step>, k: nat, c: string)
    requires Trace(states, steps) && k <= |steps|
    ensures |states| == |steps| + 1 && Known(states[k]) && OfferTagged(states[k], c)
    ensures GoneFirst(states[k], RunAt(states, steps, k))
    decreases k
  {
    hide Next, Trace, Known, OfferTagged, GoneFirst, Sane, Good, RunAfter, S.Handles;
    TraceShape(states, steps);
    if k == 0 {
      NothingBounced(c);
    } else {
      var s, r := states[k - 1], RunAt(states, steps, k - 1);
      BouncesAlong(states, steps, k - 1, c);
      InvariantAt(states, steps, k - 1, c);
      RunAtSimulates(states, steps, k - 1);
      TraceStep(states, steps, k);
      StepKnown(s, steps[k - 1], states[k]);
      if steps[k - 1].ServerTurns? {
        var o := TurnOf(s, states[k]);
        TurnSimulated(s, o, r);
        TurnGoneFirst(s, o, r);
        TurnTagged(s, o, c);
      } else {
        StepGoneFirst(s, steps[k - 1], states[k], r);
        StepTagged(s, steps[k - 1], states[k], c);
      }
    }
  }

  lemma NothingBounced(c: string)
    ensures Known(INITIAL_SYSTEM) && OfferTagged(INITIAL_SYSTEM, c) && GoneFirst(INITIAL_SYSTEM, R.NEW_RUN)
  {
  }

  // ---------- What becomes of an undeliverable offer ----------

  /** A registration of the client for the function is handled after a disconnection of the client. */
  ghost predicate RegisteredAfterGone(commands: seq<S.Command>, k: ClientId, name: string) {
    exists d, j, p :: 0 <= d < j < |commands|
                      && commands[d] == S.ClientDisconnected(k) && commands[j] == S.NewRpc(k, name, p)
  }

  /** In step `i` the server hears that the offer to client `k` could not be delivered, and still runs the
      call. */
  ghost predicate HearsBounce(states: seq<System>, steps: seq<Step>, i: nat, k: ClientId, call: Call) {
    && Trace(states, steps) && i < |steps| && steps[i] == ServerTurns
    && states[i].inbox != [] && states[i].inbox[0] == S.SendDataFailed(k, Message.RpcCall(call))
    && call.context in states[i].server.runningRpcs
  }

  /** The client's disconnection has been handled, and it is the handler that was at work. */
  lemma BounceIsLate(states: seq<System>, steps: seq<Step>, i: nat, k: ClientId, call: Call)
    requires HearsBounce(states, steps, i, k, call)
    ensures |states| == |steps| + 1 && states[i].server.runningRpcs[call.context].callee == k
    ensures RunAt(states, steps, i).server == states[i].server
    ensures RunAt(states, steps, i).handled < |RunAt(states, steps, i).log|
    ensures LoggedGone(RunAt(states, steps, i).log, k, RunAt(states, steps, i).handled)
  {
    hide Next, Trace, RunAt, Known, LoggedGone;
    TraceShape(states, steps);
    BouncesAlong(states, steps, i, call.context);
    RunAtSimulates(states, steps, i);
    var r := RunAt(states, steps, i);
    assert r.log[r.handled..][0] == r.log[r.handled];
  }

  lemma ListedIsRegistered(states: seq<System>, steps: seq<Step>, i: nat, k: ClientId, name: string)
    requires Trace(states, steps) && i <= |steps|
    requires RunAt(states, steps, i).handled <= |RunAt(states, steps, i).log|
    requires LoggedGone(RunAt(states, steps, i).log, k, RunAt(states, steps, i).handled)
    requires k in Clients(Infos(RunAt(states, steps, i).server.apiTable, name))
    ensures RegisteredAfterGone(RunAt(states, steps, i).log[..RunAt(states, steps, i).handled], k, name)
  {
    hide Next, Trace, RunAfter, R.Leads;
    TraceShape(states, steps);
    var events := RunAtLeads(states, steps, 0, i);
    hide RunAt;
    var r := RunAt(states, steps, i);
    var infos := Infos(r.server.apiTable, name);
    var n :| 0 <= n < |infos| && Clients(infos)[n] == k;
    R.EntryIffRegistered(events, r, name, infos[n]);
    var handled := r.log[..r.handled];
    var j :| R.Registers(handled, j, name, infos[n]);
    var d :| 0 <= d < r.handled && d < |r.log| && r.log[d] == S.ClientDisconnected(k);
    assert handled[d] == S.ClientDisconnected(k);
    assert handled[j] == S.NewRpc(k, name, infos[n].priority);
  }

  /**
   In every run of all parts, an offer that could not be delivered goes to a next handler only if the
   client it was meant for was registered again after its own disconnection. In all other cases the
   caller is told `NotHandled`, whatever handlers are left in the list.
   */
  lemma UndeliverableOffer(states: seq<System>, steps: seq<Step>, i: nat, k: ClientId, call: Call)
    requires HearsBounce(states, steps, i, k, call)
    ensures var r := RunAt(states, steps, i);
            var rpc := states[i].server.runningRpcs[call.context];
            && r.handled <= |r.log|
            && (RegisteredAfterGone(r.log[..r.handled], k, rpc.rpcCall.function_)
                || S.Handled(states[i].server, states[i].inbox[0]) ==
                   S.Proceed(states[i].server, [LastTo(rpc.caller, call.context, NotHandled)]))
  {
    hide Next, Trace, RunAt, LoggedGone, RegisteredAfterGone, S.OnRpcResponse;
    BounceIsLate(states, steps, i, k, call);
    EntryContext(states, steps, i, call.context);
    var server, c := states[i].server, call.context;
    var name := server.runningRpcs[c].rpcCall.function_;
    if k in Clients(Infos(server.apiTable, name)) {
      ListedIsRegistered(states, steps, i, k, name);
    } else {
      NotListedEnds(server, c);
    }
  }

  lemma EntryContext(states: seq<System>, steps: seq<Step>, i: nat, c: string)
    requires Trace(states, steps) && i <= |steps|
    ensures |states| == |steps| + 1
    ensures c in states[i].server.runningRpcs ==> states[i].server.runningRpcs[c].rpcCall.context == c
  {
    hide Trace, Good;
    InvariantAt(states, steps, i, c);
  }

  lemma NotListedEnds(server: S.State, c: string)
    requires c in server.runningRpcs && server.runningRpcs[c].rpcCall.context == c
    requires server.runningRpcs[c].callee !in Clients(Infos(server.apiTable, server.runningRpcs[c].rpcCall.function_))
    ensures S.OnRpcResponse(server, Response(c, Last(NotHandled))) ==
            S.Proceed(server, [LastTo(server.runningRpcs[c].caller, c, NotHandled)])
  {
    RefusalEndsChainIff(server, c);
  }
}
