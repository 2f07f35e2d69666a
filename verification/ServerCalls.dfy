/**
 Running calls over whole runs of the server. What the server keeps and sends for a call is told from the
 commands it has handled: a call runs from the moment it is taken up until it is answered, until its
 caller disconnects, or until its context is used again; and nothing is sent but for calls that run.
 */
module ServerCalls {
  import opened Wrappers
  import opened Rpc
  import opened Sequences
  import opened ApiTables
  import opened ServerRun
  import S = Swiboe

  // ---------- What the handled commands say ----------

  /** Some handler of the function is registered before command `i`, and its client not disconnected. */
  ghost predicate Served(commands: seq<S.Command>, i: nat, name: string) {
    i <= |commands| && exists j, info :: Registers(commands[..i], j, name, info)
  }

  /** Command `i` is this call, of a function that has a handler. */
  ghost predicate TakesUp(commands: seq<S.Command>, i: int, k: ClientId, call: Call) {
    && 0 <= i < |commands| && commands[i] == S.RpcCall(k, call)
    && !("core." <= call.function_) && Served(commands, i, call.function_)
  }

  ghost predicate Replaces(commands: seq<S.Command>, i: int, context: string) {
    exists k, call: Call :: TakesUp(commands, i, k, call) && call.context == context
  }

  /** An answer, which is a final response other than a refusal. */
  predicate Answers(command: S.Command, context: string) {
    && command.RpcResponse? && command.response.context == context
    && command.response.kind.Last? && command.response.kind.result != NotHandled
  }

  /** Command `i` takes the call up, and nothing has ended it since. */
  ghost predicate RunsFrom(commands: seq<S.Command>, i: int, k: ClientId, call: Call) {
    && TakesUp(commands, i, k, call)
    && forall j :: i < j < |commands| ==>
         && commands[j] != S.ClientDisconnected(k)
         && !Answers(commands[j], call.context)
         && !Replaces(commands, j, call.context)
  }

  // ---------- One more command ----------

  lemma ServedNext(commands: seq<S.Command>, command: S.Command, i: nat, name: string)
    requires i <= |commands|
    ensures Served(commands + [command], i, name) <==> Served(commands, i, name)
  {
    assert (commands + [command])[..i] == commands[..i];
  }

  lemma TakesUpNext(commands: seq<S.Command>, command: S.Command, i: int, k: ClientId, call: Call)
    ensures TakesUp(commands + [command], i, k, call) <==>
              if i == |commands| then
                command == S.RpcCall(k, call) && !("core." <= call.function_)
                && Served(commands, |commands|, call.function_)
              else TakesUp(commands, i, k, call)
  {
    hide Served;
    if 0 <= i <= |commands| {
      ServedNext(commands, command, i, call.function_);
      assert i < |commands| ==> (commands + [command])[i] == commands[i];
    }
  }

  lemma ReplacesNext(commands: seq<S.Command>, command: S.Command, i: int, context: string)
    ensures Replaces(commands + [command], i, context) <==>
              if i == |commands| then
                command.RpcCall? && command.call.context == context && !("core." <= command.call.function_)
                && Served(commands, |commands|, command.call.function_)
              else Replaces(commands, i, context)
  {
    forall k, call: Call
      ensures TakesUp(commands + [command], i, k, call) <==>
                if i == |commands| then
                  command == S.RpcCall(k, call) && !("core." <= call.function_)
                  && Served(commands, |commands|, call.function_)
                else TakesUp(commands, i, k, call)
    {
      TakesUpNext(commands, command, i, k, call);
    }
    hide TakesUp, Served;
    if i == |commands| && command.RpcCall? && command.call.context == context
       && !("core." <= command.call.function_) && Served(commands, |commands|, command.call.function_) {
      assert TakesUp(commands + [command], i, command.caller, command.call);
    }
  }

  lemma RunsNext(commands: seq<S.Command>, command: S.Command, i: int, k: ClientId, call: Call)
    ensures RunsFrom(commands + [command], i, k, call) <==>
              if i == |commands| then TakesUp(commands + [command], i, k, call)
              else
                && RunsFrom(commands, i, k, call) && command != S.ClientDisconnected(k)
                && !Answers(command, call.context)
                && !Replaces(commands + [command], |commands|, call.context)
  {
    var all, c := commands + [command], call.context;
    assert all[|commands|] == command;
    assert forall j :: 0 <= j < |commands| ==> all[j] == commands[j];
    TakesUpNext(commands, command, i, k, call);
    forall j | 0 <= j < |commands| ensures Replaces(all, j, c) <==> Replaces(commands, j, c) {
      ReplacesNext(commands, command, j, c);
    }
    assert TakesUp(all, i, k, call) ==> 0 <= i < |all|;
    assert TakesUp(commands, i, k, call) ==> 0 <= i < |commands|;
    hide TakesUp, Replaces, Answers;
  }

  lemma RunningNext(commands: seq<S.Command>, command: S.Command, k: ClientId, call: Call)
    ensures (exists i :: RunsFrom(commands + [command], i, k, call)) <==>
              if Replaces(commands + [command], |commands|, call.context)
              then TakesUp(commands + [command], |commands|, k, call)
              else (exists i :: RunsFrom(commands, i, k, call)) && command != S.ClientDisconnected(k)
                   && !Answers(command, call.context)
  {
    var all, n := commands + [command], |commands|;
    forall i
      ensures RunsFrom(all, i, k, call) <==>
                if i == n then TakesUp(all, i, k, call)
                else RunsFrom(commands, i, k, call) && command != S.ClientDisconnected(k)
                     && !Answers(command, call.context) && !Replaces(all, n, call.context)
    {
      RunsNext(commands, command, i, k, call);
    }
    assert TakesUp(all, n, k, call) ==> Replaces(all, n, call.context);
    assert forall i :: RunsFrom(commands, i, k, call) ==> i < n;
    hide RunsFrom, TakesUp, Replaces, Answers;
    assert TakesUp(all, n, k, call) ==> RunsFrom(all, n, k, call);
  }

  // ---------- The state ----------

  predicate Running(s: S.State, k: ClientId, call: Call) {
    && call.context in s.runningRpcs
    && s.runningRpcs[call.context].caller == k && s.runningRpcs[call.context].rpcCall == call
  }

  lemma HandlesRunning(s: S.State, command: S.Command, o: S.Outcome, k: ClientId, call: Call)
    requires S.Handles(s, command, o)
    ensures Running(o.state, k, call) <==>
              if command.RpcCall? && !("core." <= command.call.function_)
                 && Infos(s.apiTable, command.call.function_) != [] && command.call.context == call.context
              then command == S.RpcCall(k, call)
              else Running(s, k, call) && command != S.ClientDisconnected(k) && !Answers(command, call.context)
  {

    assert command.RpcCall? ==> (GetFirst(s.apiTable, command.call.function_).Some? <==>
                                 Infos(s.apiTable, command.call.function_) != []);
  }

  /** Entries are kept under the contexts of their calls. */
  ghost predicate Keyed(s: S.State) {
    forall c :: c in s.runningRpcs ==> s.runningRpcs[c].rpcCall.context == c
  }

  lemma HandlesKeyed(s: S.State, command: S.Command, o: S.Outcome)
    requires Keyed(s) && S.Handles(s, command, o)
    ensures Keyed(o.state)
  {
  }

  lemma {:induction false} AlwaysKeyed(events: seq<Event>, r: Run)
    requires Leads(NEW_RUN, events, r)
    ensures Keyed(r.server)
    decreases |events|
  {
    if events != [] {
      var r0 :| Leads(NEW_RUN, DropLast(events), r0) && Next(r0, LastOf(events), r);
      AlwaysKeyed(DropLast(events), r0);
      if LastOf(events).Turn? {
        var o :| S.Handles(r0.server, r0.log[r0.handled], o) && r == Turned(r0, o);
        hide S.Handles, Keyed;
        HandlesKeyed(r0.server, r0.log[r0.handled], o);
      }
    }
  }

  lemma ServedIff(events: seq<Event>, r: Run, name: string)
    requires Leads(NEW_RUN, events, r)
    ensures r.handled <= |r.log|
    ensures Served(r.log[..r.handled], r.handled, name) <==> Infos(r.server.apiTable, name) != []
  {
    hide Leads, Registers, Infos;
    EntryIffRegistered(events, r, name, ApiInfo(ClientId(0, 0), 0));
    var commands := r.log[..r.handled];
    assert commands[..r.handled] == commands;
    if Infos(r.server.apiTable, name) != [] {
      EntryIffRegistered(events, r, name, Infos(r.server.apiTable, name)[0]);
    }
    if j, info :| Registers(commands, j, name, info) {
      EntryIffRegistered(events, r, name, info);
    }
  }

  ghost predicate CallInv(r: Run, k: ClientId, call: Call) {
    && r.handled <= |r.log|
    && (Running(r.server, k, call) <==> exists i :: RunsFrom(r.log[..r.handled], i, k, call))
  }

  lemma TurnKeepsCalls(events: seq<Event>, r: Run, o: S.Outcome, k: ClientId, call: Call)
    requires Leads(NEW_RUN, events, r) && CallInv(r, k, call)
    requires r.handled < |r.log| && S.Handles(r.server, r.log[r.handled], o)
    ensures CallInv(Turned(r, o), k, call)
  {
    hide Leads, S.Handles, RunsFrom, Served, Infos, Answers, Running;
    var command, commands := r.log[r.handled], r.log[..r.handled];
    HandlesRunning(r.server, command, o, k, call);
    assert (r.log + o.enqueued)[..r.handled + 1] == commands + [command];
    RunningNext(commands, command, k, call);
    ReplacesNext(commands, command, r.handled, call.context);
    TakesUpNext(commands, command, r.handled, k, call);
    hide TakesUp, Replaces;
    if command.RpcCall? {
      ServedIff(events, r, command.call.function_);
    }
  }

  /**
   In every run of the server: it keeps an entry for a call of client `k` exactly when a command it has
   handled took the call up and nothing has ended it since, neither an answer, nor the disconnection of
   `k`, nor another call under its context.
   */
  lemma {:induction false} RunningIffLogged(events: seq<Event>, r: Run, k: ClientId, call: Call)
    requires Leads(NEW_RUN, events, r)
    ensures r.handled <= |r.log|
    ensures Running(r.server, k, call) <==> exists i :: RunsFrom(r.log[..r.handled], i, k, call)
    decreases |events|
  {
    hide RunsFrom, Running;
    if events == [] {
      NothingRuns(k, call);
    } else {
      var r0 :| Leads(NEW_RUN, DropLast(events), r0) && Next(r0, LastOf(events), r);
      RunningIffLogged(DropLast(events), r0, k, call);
      match LastOf(events)
      case Enqueue(command) => assert r.log[..r.handled] == r0.log[..r0.handled];
      case Turn =>
        var o :| S.Handles(r0.server, r0.log[r0.handled], o) && r == Turned(r0, o);
        TurnKeepsCalls(DropLast(events), r0, o, k, call);
    }
  }

  lemma NothingRuns(k: ClientId, call: Call)
    ensures !Running(S.INITIAL_STATE, k, call) && forall i :: !RunsFrom([], i, k, call)
  {
  }

  // ---------- What is sent ----------

  /** The client has a call running after the commands. */
  ghost predicate RunsFor(commands: seq<S.Command>, k: ClientId, call: Call) {
    exists i :: RunsFrom(commands, i, k, call)
  }

  /** The reasons there are for the server to send a message when it handles `command` after `commands`:
      an offer is of a call that runs then, and to a client registered for its function; a response goes
      to the caller of a call that ran, or of the command itself; a cancellation is one that was asked
      for, of a call that runs. */
  ghost predicate Justified(commands: seq<S.Command>, command: S.Command, m: SendData) {
    match m.message
    case RpcCall(call) =>
      && (exists k :: RunsFor(commands + [command], k, call))
      && exists j, info :: Registers(commands, j, call.function_, info) && info.clientId == m.receiver
    case RpcResponse(response) =>
      || (exists call: Call :: RunsFor(commands, m.receiver, call) && call.context == response.context)
      || (command.RpcCall? && command.caller == m.receiver && command.call.context == response.context)
    case RpcCancel(context) =>
      && command == S.RpcCancel(context)
      && exists k, call: Call :: RunsFor(commands, k, call) && call.context == context
  }

  /** What one command sends, in terms of the entries before and after it. */
  lemma SentWithEntry(s: S.State, command: S.Command, o: S.Outcome, m: SendData)
    requires Keyed(s) && S.Handles(s, command, o) && m in o.sent
    ensures match m.message
            case RpcCall(call) =>
              && (exists k :: Running(o.state, k, call)) && o.state.apiTable == s.apiTable
              && exists info :: info in Infos(s.apiTable, call.function_) && info.clientId == m.receiver
            case RpcResponse(response) =>
              || (exists call: Call :: Running(s, m.receiver, call) && call.context == response.context)
              || (command.RpcCall? && command.caller == m.receiver && command.call.context == response.context)
            case RpcCancel(context) =>
              && command == S.RpcCancel(context)
              && exists k, call: Call :: Running(s, k, call) && call.context == context
  {
    match command
    case RpcResponse(response) => SentForResponse(s, response, m);
    case SendDataFailed(_, RpcCall(call)) => SentForResponse(s, Response(call.context, Last(NotHandled)), m);
    case RpcCancel(context) =>
      var rpc := s.runningRpcs[context];
      assert Running(s, rpc.caller, rpc.rpcCall);
    case RpcCall(k, call) =>
      assert m.message.RpcCall? ==> Running(o.state, k, call);
      assert GetFirst(s.apiTable, call.function_).Some? ==>
             GetFirst(s.apiTable, call.function_).value in Infos(s.apiTable, call.function_);
    case _ =>
  }

  lemma SentForResponse(s: S.State, r: Response, m: SendData)
    requires Keyed(s) && m in S.OnRpcResponse(s, r).sent
    ensures m.message.RpcCall? ==>
              && (exists k :: Running(S.OnRpcResponse(s, r).state, k, m.message.call))
              && S.OnRpcResponse(s, r).state.apiTable == s.apiTable
              && exists info :: info in Infos(s.apiTable, m.message.call.function_) && info.clientId == m.receiver
    ensures m.message.RpcResponse? ==>
              exists call: Call :: Running(s, m.receiver, call) && call.context == m.message.response.context
    ensures !m.message.RpcCancel?
  {
    var rpc, o := s.runningRpcs[r.context], S.OnRpcResponse(s, r);
    assert Running(s, rpc.caller, rpc.rpcCall);
    if m.message.RpcCall? {
      GetNextFollowsFirst(s.apiTable, rpc.rpcCall.function_, rpc.callee);
      var next := GetNext(s.apiTable, rpc.rpcCall.function_, rpc.callee);
      assert next.value in Infos(s.apiTable, rpc.rpcCall.function_);
      assert Running(o.state, rpc.caller, rpc.rpcCall);
    }
  }

  /** In every run of the server, every message it sends has its reason in the commands it has handled. */
  lemma SentForRunningCalls(events: seq<Event>, r: Run, o: S.Outcome, m: SendData)
    requires Leads(NEW_RUN, events, r) && r.handled < |r.log|
    requires S.Handles(r.server, r.log[r.handled], o) && m in o.sent
    ensures Justified(r.log[..r.handled], r.log[r.handled], m)
  {
    hide Leads, S.Handles, RunsFrom, Running, Registers, Infos, Keyed;
    var command, commands := r.log[r.handled], r.log[..r.handled];
    AlwaysKeyed(events, r);
    SentWithEntry(r.server, command, o, m);
    match m.message
    case RpcCall(call) =>
      var k :| Running(o.state, k, call);
      OfferRuns(events, r, o, k, call);
      var info :| info in Infos(r.server.apiTable, call.function_) && info.clientId == m.receiver;
      EntryIffRegistered(events, r, call.function_, info);
    case RpcResponse(response) =>
      if call: Call :| Running(r.server, m.receiver, call) && call.context == response.context {
        RunningIffLogged(events, r, m.receiver, call);
      }
    case RpcCancel(context) =>
      var k, call: Call :| Running(r.server, k, call) && call.context == context;
      EntryRuns(events, r, k, call);
  }

  lemma OfferRuns(events: seq<Event>, r: Run, o: S.Outcome, k: ClientId, call: Call)
    requires Leads(NEW_RUN, events, r) && r.handled < |r.log| && S.Handles(r.server, r.log[r.handled], o)
    requires Running(o.state, k, call)
    ensures RunsFor(r.log[..r.handled] + [r.log[r.handled]], k, call)
  {
    hide S.Handles, RunsFrom, Running, Leads;
    var r' := Turned(r, o);
    ThenTurns(events, r, r');
    RunningIffLogged(events + [Turn], r', k, call);
    assert r'.log[..r'.handled] == r.log[..r.handled] + [r.log[r.handled]];
  }

  /** Command `d` disconnects the client, and no call of it comes after that. */
  ghost predicate GoneSince(commands: seq<S.Command>, d: nat, k: ClientId) {
    && d < |commands| && commands[d] == S.ClientDisconnected(k)
    && forall j :: d < j < |commands| ==> !(commands[j].RpcCall? && commands[j].caller == k)
  }

  lemma GoneRunsNothing(commands: seq<S.Command>, d: nat, k: ClientId, call: Call)
    requires GoneSince(commands, d, k)
    ensures !RunsFor(commands, k, call)
  {
    hide Served, Replaces, Answers;
    var gone := commands[d];
    assert forall i :: RunsFrom(commands, i, k, call) ==> d <= i;
    assert forall i :: RunsFrom(commands, i, k, call) ==> commands[i] == S.RpcCall(k, call);
  }

  /**
   Once a client's disconnection is handled, and until a call of that client is, the server keeps no entry
   for it, offers no call of it to anyone, and sends it no response.
   */
  lemma GoneCallerIsSilent(events: seq<Event>, r: Run, o: S.Outcome, m: SendData, d: nat, k: ClientId)
    requires Leads(NEW_RUN, events, r) && r.handled < |r.log|
    requires S.Handles(r.server, r.log[r.handled], o) && m in o.sent
    requires GoneSince(r.log[..r.handled] + [r.log[r.handled]], d, k) && d < r.handled
    ensures forall c :: c in r.server.runningRpcs ==> r.server.runningRpcs[c].caller != k
    ensures m.message.RpcResponse? ==> m.receiver != k
    ensures m.message.RpcCall? ==>
              exists k' :: k' != k && RunsFor(r.log[..r.handled] + [r.log[r.handled]], k', m.message.call)
  {
    hide Leads, S.Handles, RunsFor, Registers;
    var command, commands := r.log[r.handled], r.log[..r.handled];
    var all := commands + [command];
    assert GoneSince(commands, d, k) by {
      assert forall j :: 0 <= j < |commands| ==> all[j] == commands[j];
    }
    assert all[|commands|] == command;
    SentForRunningCalls(events, r, o, m);
    AlwaysKeyed(events, r);
    forall c | c in r.server.runningRpcs ensures r.server.runningRpcs[c].caller != k {
      var call := r.server.runningRpcs[c].rpcCall;
      GoneRunsNothing(commands, d, k, call);
      if Running(r.server, k, call) {
        EntryRuns(events, r, k, call);
      }
    }
    match m.message
    case RpcCall(call) => GoneRunsNothing(all, d, k, call);
    case RpcResponse(_) =>
      forall call: Call ensures !RunsFor(commands, k, call) {
        GoneRunsNothing(commands, d, k, call);
      }
    case RpcCancel(_) =>
  }

  lemma EntryRuns(events: seq<Event>, r: Run, k: ClientId, call: Call)
    requires Leads(NEW_RUN, events, r) && Running(r.server, k, call)
    ensures r.handled <= |r.log| && RunsFor(r.log[..r.handled], k, call)
  {
    hide Running, RunsFrom, Leads;
    RunningIffLogged(events, r, k, call);
  }

  // ---------- What becomes of a call ----------

  /** The handler is registered, and no other one with a smaller priority number. */
  ghost predicate FirstHandler(commands: seq<S.Command>, name: string, info: ApiInfo) {
    && (exists j :: Registers(commands, j, name, info))
    && forall j, other :: Registers(commands, j, name, other) ==> info.priority <= other.priority
  }

  /** In every run: a call of a function that some client serves is offered to a handler with the least
      priority number; one that nobody serves is answered at once as unknown. */
  lemma OfferedOrUnknown(events: seq<Event>, r: Run, o: S.Outcome, k: ClientId, call: Call)
    requires Leads(NEW_RUN, events, r) && r.handled < |r.log| && r.log[r.handled] == S.RpcCall(k, call)
    requires S.Handles(r.server, r.log[r.handled], o) && !("core." <= call.function_)
    ensures var commands := r.log[..r.handled];
            if Served(commands, r.handled, call.function_)
            then exists info :: FirstHandler(commands, call.function_, info)
                                && o.sent == [SendData(info.clientId, Message.RpcCall(call))]
            else o.sent == [LastTo(k, call.context, Err(UnknownRpc, ""))]
  {
    var name := call.function_;
    ServedIff(events, r, name);
    if Infos(r.server.apiTable, name) != [] {
      var info := Infos(r.server.apiTable, name)[0];
      assert info in Infos(r.server.apiTable, name);
      hide Leads, Registers, Served;
      EntryIffRegistered(events, r, name, info);
      TableSorted(events, r);
      forall j, other | Registers(r.log[..r.handled], j, name, other) ensures info.priority <= other.priority {
        EntryIffRegistered(events, r, name, other);
        FirstIsLeast(r.server.apiTable, name, other);
      }
      assert FirstHandler(r.log[..r.handled], name, info);
    }
  }

  lemma FirstIsLeast(t: Table, name: string, other: ApiInfo)
    requires WellFormed(t) && other in Infos(t, name)
    ensures Infos(t, name)[0].priority <= other.priority
  {
  }

  lemma TableSorted(events: seq<Event>, r: Run)
    requires Leads(NEW_RUN, events, r)
    ensures WellFormed(r.server.apiTable)
  {
    hide Leads, Produces;
    NewRunInv();
    TableFollowsLog(NEW_RUN, events, r);
    TableHoldsSurvivors(Ops(r.log[..r.handled]), r.server.apiTable, "");
  }
}
