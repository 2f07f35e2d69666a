/**
 The server's queue over whole runs. Everything ever put on the queue, by clients or by the
 server itself, forms a log; the server handles it in order. Every run of the network is such a
 run to the server, its inbox being the part of the log not yet handled (`NetworkRuns`).
 */
module ServerRun {
  import opened Wrappers
  import opened Rpc
  import opened Sequences
  import opened ApiTables
  import S = Swiboe

  datatype Run = Run(server: S.State, log: seq<S.Command>, handled: nat, sent: seq<SendData>)

  const NEW_RUN := Run(S.INITIAL_STATE, [], 0, [])

  datatype Event = Enqueue(command: S.Command) | Turn

  ghost predicate Next(r: Run, e: Event, r': Run) {
    match e
    case Enqueue(command) => r' == r.(log := r.log + [command])
    case Turn => r.handled < |r.log| && exists o :: S.Handles(r.server, r.log[r.handled], o) && r' == Turned(r, o)
  }

  function Turned(r: Run, o: S.Outcome): Run {
    Run(o.state, r.log + o.enqueued, r.handled + 1, r.sent + o.sent)
  }

  ghost predicate Leads(r: Run, events: seq<Event>, r': Run) {
    if events == [] then r' == r
    else exists r0 :: Leads(r, DropLast(events), r0) && Next(r0, LastOf(events), r')
  }

  // ---------- The table is what the handled log makes of it ----------

  function AsOp(command: S.Command): seq<Op> {
    match command
    case NewRpc(k, name, priority) => [Register(name, ApiInfo(k, priority))]
    case ClientDisconnected(k) => [Deregister(k)]
    case _ => []
  }

  function Ops(commands: seq<S.Command>): seq<Op> {
    FlatMap(commands, AsOp)
  }

  ghost predicate TableInv(r: Run) {
    r.handled <= |r.log| && Produces(Ops(r.log[..r.handled]), r.server.apiTable)
  }

  lemma HandlesKeepsTable(s: S.State, command: S.Command, o: S.Outcome, ops: seq<Op>)
    requires Produces(ops, s.apiTable) && S.Handles(s, command, o)
    ensures Produces(ops + AsOp(command), o.state.apiTable)
  {
    hide Produces;
    if AsOp(command) == [] {
      assert ops + AsOp(command) == ops;
    } else {
      var op := AsOp(command)[0];
      assert ops + AsOp(command) == ops + [op];
      ProducesNext(ops, s.apiTable, op, o.state.apiTable);
    }
  }

  lemma ProducesNext(ops: seq<Op>, t: Table, op: Op, t': Table)
    requires Produces(ops, t) && OpStep(t, op, t')
    ensures Produces(ops + [op], t')
  {
    hide OpStep;
    assert DropLast(ops + [op]) == ops && LastOf(ops + [op]) == op;
  }

  lemma TurnKeepsTable(r: Run, o: S.Outcome)
    requires TableInv(r) && r.handled < |r.log| && S.Handles(r.server, r.log[r.handled], o)
    ensures TableInv(Turned(r, o))
  {
    var r' := Turned(r, o);
    assert r'.log[..r'.handled] == r.log[..r.handled] + [r.log[r.handled]];
    FlatMapAppend(r.log[..r.handled], r.log[r.handled], AsOp);
    HandlesKeepsTable(r.server, r.log[r.handled], o, Ops(r.log[..r.handled]));
  }

  lemma {:induction false} TableFollowsLog(r: Run, events: seq<Event>, r': Run)
    requires TableInv(r) && Leads(r, events, r')
    ensures TableInv(r')
    ensures r.log <= r'.log && r.handled <= r'.handled
    decreases |events|
  {
    if events != [] {
      var r0 :| Leads(r, DropLast(events), r0) && Next(r0, LastOf(events), r');
      TableFollowsLog(r, DropLast(events), r0);
      match LastOf(events)
      case Enqueue(_) => assert r'.log[..r'.handled] == r0.log[..r0.handled];
      case Turn =>
        var o :| S.Handles(r0.server, r0.log[r0.handled], o) && r' == Turned(r0, o);
        TurnKeepsTable(r0, o);
    }
  }

  // ---------- Surviving registrations, seen in the log ----------

  /** Command `i` registers `info` under `name` and no later one disconnects its client. */
  ghost predicate Registers(commands: seq<S.Command>, i: int, name: string, info: ApiInfo) {
    && 0 <= i < |commands|
    && commands[i] == S.NewRpc(info.clientId, name, info.priority)
    && (forall j :: i < j < |commands| ==> commands[j] != S.ClientDisconnected(info.clientId))
  }

  lemma {:induction false} OpsHasDeregister(commands: seq<S.Command>, k: ClientId)
    ensures Deregister(k) in Ops(commands) <==> S.ClientDisconnected(k) in commands
  {
    if commands != [] {
      OpsHasDeregister(commands[1..], k);
    }
  }

  lemma {:induction false} SurvivesIffRegisters(commands: seq<S.Command>, name: string, info: ApiInfo)
    ensures info in Surviving(Ops(commands), name) <==> exists i :: Registers(commands, i, name, info)
  {
    if commands != [] {
      var rest := commands[1..];
      SurvivesIffRegisters(rest, name, info);
      OpsHasDeregister(rest, info.clientId);
      SurvivingFirst(commands, name, info);
      if i :| Registers(rest, i, name, info) {
        assert Registers(commands, i + 1, name, info);
      }
      if i :| Registers(commands, i, name, info) {
        if i == 0 {
          assert S.ClientDisconnected(info.clientId) !in rest;
        } else {
          assert Registers(rest, i - 1, name, info);
        }
      }
      if commands[0] == S.NewRpc(info.clientId, name, info.priority) && S.ClientDisconnected(info.clientId) !in rest {
        assert forall j :: 0 < j < |commands| ==> commands[j] in rest;
        assert Registers(commands, 0, name, info);
      }
    }
  }

  lemma SurvivingFirst(commands: seq<S.Command>, name: string, info: ApiInfo)
    requires commands != []
    ensures info in Surviving(Ops(commands), name) <==>
      || info in Surviving(Ops(commands[1..]), name)
      || (commands[0] == S.NewRpc(info.clientId, name, info.priority)
          && Deregister(info.clientId) !in Ops(commands[1..]))
  {
    var rest := Ops(commands[1..]);
    if AsOp(commands[0]) == [] {
      assert Ops(commands) == rest;
    } else {
      assert Ops(commands) == [AsOp(commands[0])[0]] + rest;
      assert Ops(commands)[1..] == rest;
    }
  }

  /** The table holds an entry exactly when the handled log registers it and does not disconnect
      its client afterwards. Whether the client is connected plays no part. */
  lemma EntryIffRegistered(events: seq<Event>, r: Run, name: string, info: ApiInfo)
    requires Leads(NEW_RUN, events, r)
    ensures r.handled <= |r.log|
    ensures info in Infos(r.server.apiTable, name) <==>
            exists i :: Registers(r.log[..r.handled], i, name, info)
  {
    assert TableInv(NEW_RUN);
    TableFollowsLog(NEW_RUN, events, r);
    TableHoldsSurvivors(Ops(r.log[..r.handled]), r.server.apiTable, name);
    SurvivesIffRegisters(r.log[..r.handled], name, info);
    assert info in Infos(r.server.apiTable, name) <==> info in multiset(Infos(r.server.apiTable, name));
  }

  // ---------- A registration is visible before its reply ----------

  /** `call` asks to register `name` with `priority`. */
  predicate AsksToRegister(call: Call, name: string, priority: Priority) {
    call.function_ == "core.new_rpc" && call.args == NewRpcRequest(priority, name)
  }

  /**
   Let the server answer client `k`'s `core.new_rpc` in the turn from `r` to `r1`. Whatever happens
   then, a command put on the queue after that reply is handled when the registration is in the
   table, unless `k`'s disconnection is handled in between: a call of the function then finds a
   handler.
   */
  lemma RegisteredBeforeReply(past: seq<Event>, r: Run, r1: Run, future: seq<Event>, r2: Run,
                              k: ClientId, call: Call, name: string, priority: Priority)
    requires Leads(NEW_RUN, past, r) && Next(r, Turn, r1) && Leads(r1, future, r2)
    requires r.log[r.handled] == S.RpcCall(k, call) && AsksToRegister(call, name, priority)
    requires |r1.log| <= r2.handled
    requires forall j :: |r.log| < j < r2.handled && j < |r2.log| ==> r2.log[j] != S.ClientDisconnected(k)
    ensures r1.sent == r.sent + [LastTo(k, call.context, Ok(Json("null")))]
    ensures ApiInfo(k, priority) in Infos(r2.server.apiTable, name)
    ensures GetFirst(r2.server.apiTable, name).Some?
  {
    TurnThenFuture(past, r, r1, future, r2);
    assert S.CORE_FUNCTIONS_PREFIX <= call.function_;
    assert r1.log == r.log + [S.NewRpc(k, name, priority)];
    var events: seq<Event> :| Leads(NEW_RUN, events, r2);
    assert r2.log[|r.log|] == r1.log[|r.log|];
    assert Registers(r2.log[..r2.handled], |r.log|, name, ApiInfo(k, priority));
    EntryIffRegistered(events, r2, name, ApiInfo(k, priority));
  }

  lemma TurnThenFuture(past: seq<Event>, r: Run, r1: Run, future: seq<Event>, r2: Run)
    requires Leads(NEW_RUN, past, r) && Next(r, Turn, r1) && Leads(r1, future, r2)
    ensures exists events: seq<Event> :: Leads(NEW_RUN, events, r2)
    ensures r1.log <= r2.log && r2.handled <= |r2.log|
  {
    hide Leads, Next, Produces, Ops;
    ThenTurns(past, r, r1);
    LeadsConcat(NEW_RUN, past + [Turn], r1, future, r2);
    NewRunInv();
    TableFollowsLog(NEW_RUN, past + [Turn], r1);
    TableFollowsLog(r1, future, r2);
  }

  lemma NewRunInv()
    ensures TableInv(NEW_RUN)
  {
  }

  lemma ThenTurns(past: seq<Event>, r: Run, r1: Run)
    requires Leads(NEW_RUN, past, r) && Next(r, Turn, r1)
    ensures Leads(NEW_RUN, past + [Turn], r1)
  {
    assert DropLast(past + [Turn]) == past && LastOf(past + [Turn]) == Turn;
  }

  lemma {:induction false} LeadsConcat(r: Run, a: seq<Event>, r1: Run, b: seq<Event>, r2: Run)
    requires Leads(r, a, r1) && Leads(r1, b, r2)
    ensures Leads(r, a + b, r2)
    decreases |b|
  {
    if b == [] {
      assert a + b == a;
    } else {
      var r0 :| Leads(r1, DropLast(b), r0) && Next(r0, LastOf(b), r2);
      LeadsConcat(r, a, r1, DropLast(b), r0);
      assert DropLast(a + b) == a + DropLast(b) && LastOf(a + b) == LastOf(b);
    }
  }

  /** A disconnection leaves no entry of its client, unless a registration is handled after it. */
  lemma GoneAfterDisconnect(events: seq<Event>, r: Run, d: nat, k: ClientId, name: string, info: ApiInfo)
    requires Leads(NEW_RUN, events, r) && d < r.handled <= |r.log|
    requires r.log[d] == S.ClientDisconnected(k) && info.clientId == k
    requires forall j :: d < j < r.handled ==> !(r.log[j].NewRpc? && r.log[j].clientId == k)
    ensures info !in Infos(r.server.apiTable, name)
  {
    EntryIffRegistered(events, r, name, info);
    var handled := r.log[..r.handled];
    assert handled[d] == S.ClientDisconnected(k);
    assert forall i :: !Registers(handled, i, name, info);
  }

  // ---------- Connected clients, seen in the log ----------

  /** Command `i` connects the client and no later one disconnects it. */
  ghost predicate Connects(commands: seq<S.Command>, i: int, k: ClientId) {
    && 0 <= i < |commands| && commands[i] == S.ClientConnected(k)
    && (forall j :: i < j < |commands| ==> commands[j] != S.ClientDisconnected(k))
  }

  ghost predicate ClientsInv(r: Run, k: ClientId) {
    r.handled <= |r.log| && (k in r.server.clients <==> exists i :: Connects(r.log[..r.handled], i, k))
  }

  lemma HandlesClients(s: S.State, command: S.Command, o: S.Outcome, k: ClientId)
    requires S.Handles(s, command, o)
    ensures k in o.state.clients <==>
            command == S.ClientConnected(k) || (k in s.clients && command != S.ClientDisconnected(k))
  {
  }

  lemma ConnectsAppend(commands: seq<S.Command>, command: S.Command, k: ClientId)
    ensures (exists i :: Connects(commands + [command], i, k)) <==>
            || command == S.ClientConnected(k)
            || ((exists i :: Connects(commands, i, k)) && command != S.ClientDisconnected(k))
  {
    var all := commands + [command];
    if command == S.ClientConnected(k) {
      assert Connects(all, |commands|, k);
    } else if i :| Connects(all, i, k) {
      assert i < |commands| && all[|commands|] == command;
      assert forall j :: 0 <= j < |commands| ==> all[j] == commands[j];
      assert Connects(commands, i, k);
    } else if i :| Connects(commands, i, k) {
      assert command != S.ClientDisconnected(k) ==> Connects(all, i, k);
    }
  }

  lemma {:induction false} ClientsFollowLog(events: seq<Event>, r: Run, k: ClientId)
    requires Leads(NEW_RUN, events, r)
    ensures ClientsInv(r, k)
    decreases |events|
  {
    if events == [] {
      assert forall i :: !Connects([], i, k);
    } else {
      var r0 :| Leads(NEW_RUN, DropLast(events), r0) && Next(r0, LastOf(events), r);
      ClientsFollowLog(DropLast(events), r0, k);
      hide ClientsInv;
      match LastOf(events)
      case Enqueue(command) => EnqueueKeepsClients(r0, command, k);
      case Turn =>
        var o :| S.Handles(r0.server, r0.log[r0.handled], o) && r == Turned(r0, o);
        TurnKeepsClients(r0, o, k);
    }
  }

  lemma EnqueueKeepsClients(r: Run, command: S.Command, k: ClientId)
    requires ClientsInv(r, k)
    ensures ClientsInv(r.(log := r.log + [command]), k)
  {
    assert (r.log + [command])[..r.handled] == r.log[..r.handled];
  }

  lemma TurnKeepsClients(r: Run, o: S.Outcome, k: ClientId)
    requires ClientsInv(r, k) && r.handled < |r.log| && S.Handles(r.server, r.log[r.handled], o)
    ensures ClientsInv(Turned(r, o), k)
  {
    hide Connects, S.Handles;
    var command := r.log[r.handled];
    HandlesClients(r.server, command, o, k);
    assert (r.log + o.enqueued)[..r.handled + 1] == r.log[..r.handled] + [command];
    ConnectsAppend(r.log[..r.handled], command, k);
  }

  /** A client counts as connected exactly when the handled log connects it and does not disconnect
      it afterwards. */
  lemma ConnectedIffLogged(events: seq<Event>, r: Run, k: ClientId)
    requires Leads(NEW_RUN, events, r)
    ensures r.handled <= |r.log|
    ensures k in r.server.clients <==> exists i :: Connects(r.log[..r.handled], i, k)
  {
    ClientsFollowLog(events, r, k);
  }

  // ---------- Registered but not connected ----------

  ghost predicate AllConnected(s: S.State) {
    forall name, info :: info in Infos(s.apiTable, name) ==> info.clientId in s.clients
  }

  /** Every registered client is connected exactly when, in the handled log, every registration that
      survives is one of a client whose connection survives. */
  lemma AllConnectedIffLogged(events: seq<Event>, r: Run)
    requires Leads(NEW_RUN, events, r)
    ensures r.handled <= |r.log|
    ensures AllConnected(r.server) <==>
            forall name, info, i :: Registers(r.log[..r.handled], i, name, info) ==>
              exists j :: Connects(r.log[..r.handled], j, info.clientId)
  {
    hide Leads, Registers, Connects;
    ConnectedIffLogged(events, r, ClientId(0, 0));
    var handled := r.log[..r.handled];
    if AllConnected(r.server) {
      forall name, info, i | Registers(handled, i, name, info) ensures exists j :: Connects(handled, j, info.clientId) {
        EntryIffRegistered(events, r, name, info);
        ConnectedIffLogged(events, r, info.clientId);
      }
    } else {
      var name, info :| info in Infos(r.server.apiTable, name) && info.clientId !in r.server.clients;
      EntryIffRegistered(events, r, name, info);
      ConnectedIffLogged(events, r, info.clientId);
      var i :| Registers(handled, i, name, info);
    }
  }

  /** In any state in which every registered client is connected, handling a command keeps it so if
      and only if the command does not register a function of a client that is not connected. */
  lemma AllConnectedStaysIff(s: S.State, command: S.Command, o: S.Outcome)
    requires AllConnected(s) && S.Handles(s, command, o)
    ensures AllConnected(o.state) <==> (command.NewRpc? ==> command.clientId in s.clients)
  {
    match command
    case NewRpc(k, name, priority) => RegisteredMembers(s.apiTable, name, ApiInfo(k, priority), o.state.apiTable);
    case ClientDisconnected(k) =>
      forall name, info | info in Infos(o.state.apiTable, name) ensures info.clientId in o.state.clients {
        RetainedMembers(Infos(s.apiTable, name), k, info);
      }
    case _ =>
  }

  lemma RegisteredMembers(t: Table, name: string, info: ApiInfo, t': Table)
    requires Registered(t, name, info, t')
    ensures forall n, i :: i in Infos(t', n) <==> i in Infos(t, n) || (n == name && i == info)
  {
    InsertedMultiset(Infos(t, name), info, t'[name]);
    forall i ensures i in t'[name] <==> i in Infos(t, name) || i == info {
      assert i in t'[name] <==> i in multiset(t'[name]);
      assert i in Infos(t, name) <==> i in multiset(Infos(t, name));
    }
  }

  /**
   That every registered client is connected is not kept: a registration asked for before a
   disconnection, but put on the server's own queue behind it, outlives the client.
   */
  lemma StaleRegistration(k: ClientId, context: string, name: string, priority: Priority)
    ensures exists r: Run :: Reachable(r) && ApiInfo(k, priority) in Infos(r.server.apiTable, name)
                             && k !in r.server.clients
  {
    var info, asks := ApiInfo(k, priority), S.RpcCall(k, Call("core.new_rpc", context, NewRpcRequest(priority, name)));
    var s1 := S.INITIAL_STATE.(clients := {k});
    var queued := Run(S.INITIAL_STATE, [S.ClientConnected(k), asks, S.ClientDisconnected(k)], 0, []);
    StaleQueue(S.ClientConnected(k), asks, S.ClientDisconnected(k));
    ReachTurn(queued, S.Proceed(s1, []));
    var connected := Turned(queued, S.Proceed(s1, []));
    ReachTurn(connected, S.OnRpcCall(s1, k, asks.call));
    var answered := Turned(connected, S.OnRpcCall(s1, k, asks.call));
    assert answered.log == queued.log + [S.NewRpc(k, name, priority)];
    ReachTurn(answered, S.Proceed(S.OnClientDisconnected(s1, k), []));
    var gone := Turned(answered, S.Proceed(S.OnClientDisconnected(s1, k), []));
    var stale := S.State(map[name := [info]], {}, map[]);
    FirstRegistration(name, info);
    ReachTurn(gone, S.Proceed(stale, []));
  }

  lemma FirstRegistration(name: string, info: ApiInfo)
    ensures Registered(map[], name, info, map[name := [info]])
  {
    assert BinarySearchAnswer([], info.priority, 0);
    assert InsertedInto([], info, [info]);
  }

  lemma ReachTurn(r: Run, o: S.Outcome)
    requires Reachable(r) && r.handled < |r.log| && S.Handles(r.server, r.log[r.handled], o)
    ensures Reachable(Turned(r, o))
  {
    ReachNext(r, Turn, Turned(r, o));
  }

  ghost predicate Reachable(r: Run) {
    exists events: seq<Event> :: Leads(NEW_RUN, events, r)
  }

  lemma ReachNext(r: Run, e: Event, r': Run)
    requires Reachable(r) && Next(r, e, r')
    ensures Reachable(r')
  {
    var events: seq<Event> :| Leads(NEW_RUN, events, r);
    assert DropLast(events + [e]) == events && LastOf(events + [e]) == e;
    assert Leads(NEW_RUN, events + [e], r');
  }

  lemma StaleQueue(a: S.Command, b: S.Command, c: S.Command)
    ensures Reachable(Run(S.INITIAL_STATE, [a, b, c], 0, []))
  {
    var r1, r2 := NEW_RUN.(log := [a]), NEW_RUN.(log := [a, b]);
    assert Leads(NEW_RUN, [], NEW_RUN);
    ReachNext(NEW_RUN, Enqueue(a), r1);
    ReachNext(r1, Enqueue(b), r2);
    ReachNext(r2, Enqueue(c), Run(S.INITIAL_STATE, [a, b, c], 0, []));
  }
}
