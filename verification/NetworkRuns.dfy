/**
 Runs of the network, seen by the server. What the server handles along a run of all parts is a run of
 its own queue, so what is proved of the server alone holds in the network, and the network's invariant
 adds what the other parts guarantee.
 */
module NetworkRuns {
  import opened Wrappers
  import opened Rpc
  import opened Sequences
  import opened ApiTables
  import S = Swiboe
  import R = ServerRun
  import opened CallProtocol
  import opened Network
  import opened NetworkInvariant
  import opened NetworkServer
  import opened NetworkTheorems
  import opened NetworkBudget
  import opened Dispatch

  // ---------- The simulation ----------

  /** The server of the network is where the run is, and its inbox is what the run has not yet handled. */
  ghost predicate Simulates(s: System, r: R.Run) {
    r.handled <= |r.log| && r.server == s.server && r.log[r.handled..] == s.inbox
  }

  /** What a step of the network is to the server's queue. */
  ghost function RunAfter(s: System, step: Step, s': System, r: R.Run): R.Run {
    if step.ServerTurns? && s.inbox != [] && |s.inbox| - 1 <= |s'.inbox| && |s.bridge| <= |s'.bridge| then
      R.Run(s'.server, r.log + s'.inbox[|s.inbox| - 1..], r.handled + 1, r.sent + s'.bridge[|s.bridge|..])
    else if |s.inbox| < |s'.inbox| then r.(log := r.log + s'.inbox[|s.inbox|..])
    else r
  }

  lemma TurnSimulated(s: System, o: S.Outcome, r: R.Run)
    requires Simulates(s, r) && Serves(s, o)
    ensures var r' := RunAfter(s, ServerTurns, ServerTurned(s, o), r);
            && Simulates(ServerTurned(s, o), r') && r' == R.Turned(r, o)
            && r.handled < |r.log| && r.log[r.handled] == s.inbox[0] && R.Next(r, R.Turn, r')
  {
    hide S.Handles;
    var s' := ServerTurned(s, o);
    assert r.log[r.handled..][0] == r.log[r.handled];
    assert s'.inbox[|s.inbox| - 1..] == o.enqueued && s'.bridge[|s.bridge|..] == o.sent;
    assert (r.log + o.enqueued)[r.handled + 1..] == r.log[r.handled..][1..] + o.enqueued;
  }

  lemma EnqueueSimulated(s: System, step: Step, s': System, r: R.Run)
    requires Simulates(s, r) && Next(s, step, s') && !step.ServerTurns?
    ensures var r' := RunAfter(s, step, s', r);
            && Simulates(s', r')
            && (r' == r || (|s'.inbox| == |s.inbox| + 1 && R.Next(r, R.Enqueue(s'.inbox[|s.inbox|]), r')))
  {
    InboxGrows(s, step, s');
    if s'.inbox != s.inbox {
      var command := s'.inbox[|s.inbox|];
      assert s'.inbox[|s.inbox|..] == [command];
      assert (r.log + [command])[r.handled..] == r.log[r.handled..] + [command];
    }
  }

  lemma InboxGrows(s: System, step: Step, s': System)
    requires Next(s, step, s') && !step.ServerTurns?
    ensures s'.server == s.server
    ensures s'.inbox == s.inbox || (|s'.inbox| == |s.inbox| + 1 && s'.inbox[..|s.inbox|] == s.inbox)
  {
    if s'.inbox != s.inbox {
      assert s'.inbox == s.inbox + [s'.inbox[|s.inbox|]];
    }
  }

  /** A step of the network is a turn of the server, one more command on its queue, or nothing to it. */
  lemma StepSimulated(s: System, step: Step, s': System, r: R.Run)
    requires Simulates(s, r) && Next(s, step, s')
    ensures var r' := RunAfter(s, step, s', r);
            Simulates(s', r') && (r' == r || exists e :: R.Next(r, e, r'))
  {
    if step.ServerTurns? {
      var o :| S.Handles(s.server, s.inbox[0], o) && s' == ServerTurned(s, o);
      TurnSimulated(s, o, r);
    } else {
      hide Next;
      EnqueueSimulated(s, step, s', r);
    }
  }

  /** The server's run along the first `k` steps of a run of the network. */
  ghost function RunAt(states: seq<System>, steps: seq<Step>, k: nat): R.Run
    requires |states| == |steps| + 1 && k <= |steps|
  {
    if k == 0 then R.NEW_RUN
    else RunAfter(states[k - 1], steps[k - 1], states[k], RunAt(states, steps, k - 1))
  }

  lemma TraceStep(states: seq<System>, steps: seq<Step>, k: nat)
    requires Trace(states, steps) && 0 < k <= |steps|
    ensures Next(states[k - 1], steps[k - 1], states[k])
  {
    hide Next;
    var step := steps[k - 1];
    assert Next(states[k - 1], step, states[k - 1 + 1]);
  }

  lemma {:induction false} RunAtSimulates(states: seq<System>, steps: seq<Step>, k: nat)
    requires Trace(states, steps) && k <= |steps|
    ensures Simulates(states[k], RunAt(states, steps, k))
    decreases k
  {
    hide Next, RunAfter, Trace;
    if k == 0 {
      StartSimulates(states, steps);
    } else {
      TraceShape(states, steps);
      RunAtSimulates(states, steps, k - 1);
      TraceStep(states, steps, k);
      StepSimulated(states[k - 1], steps[k - 1], states[k], RunAt(states, steps, k - 1));
    }
  }

  lemma TraceShape(states: seq<System>, steps: seq<Step>)
    requires Trace(states, steps)
    ensures |states| == |steps| + 1 && states[0] == INITIAL_SYSTEM
  {
    hide Next;
  }

  lemma StartSimulates(states: seq<System>, steps: seq<Step>)
    requires Trace(states, steps)
    ensures |states| == |steps| + 1 && Simulates(states[0], RunAt(states, steps, 0))
  {
    hide Next;
  }

  /** Between two moments of the network's run, the server's queue takes a run of its own. */
  lemma {:induction false} RunAtLeads(states: seq<System>, steps: seq<Step>, i: nat, k: nat)
    returns (events: seq<R.Event>)
    requires Trace(states, steps) && i <= k <= |steps|
    ensures R.Leads(RunAt(states, steps, i), events, RunAt(states, steps, k))
    decreases k - i
  {
    hide Next, RunAfter, Trace, R.Next;
    TraceShape(states, steps);
    if i == k {
      events := [];
    } else {
      events := RunAtLeads(states, steps, i, k - 1);
      TraceStep(states, steps, k);
      RunAtSimulates(states, steps, k - 1);
      var r := RunAt(states, steps, k - 1);
      StepSimulated(states[k - 1], steps[k - 1], states[k], r);
      if RunAt(states, steps, k) != r {
        var e :| R.Next(r, e, RunAt(states, steps, k));
        LeadsNext(RunAt(states, steps, i), events, r, e, RunAt(states, steps, k));
        events := events + [e];
      }
    }
  }

  lemma LeadsNext(r0: R.Run, events: seq<R.Event>, r: R.Run, e: R.Event, r': R.Run)
    requires R.Leads(r0, events, r) && R.Next(r, e, r')
    ensures R.Leads(r0, events + [e], r')
  {
    hide R.Next;
    assert DropLast(events + [e]) == events && LastOf(events + [e]) == e;
  }

  // ---------- Runs of the queue are commands handled one after another ----------

  lemma {:induction false} HandlingAppend(s: S.State, commands: seq<S.Command>, s1: S.State, sent: seq<SendData>,
                                          command: S.Command, o: S.Outcome)
    requires Handling(s, commands, s1, sent) && S.Handles(s1, command, o)
    ensures Handling(s, commands + [command], o.state, sent + o.sent)
    decreases |commands|
  {
    hide S.Handles;
    if commands == [] {
      assert [command][1..] == [] && o.sent + [] == o.sent && [] + o.sent == o.sent;
      assert Handling(o.state, [], o.state, []);
      assert Handling(s, [command], o.state, o.sent);
      assert commands + [command] == [command];
    } else {
      var o1, rest :| S.Handles(s, commands[0], o1) && Handling(o1.state, commands[1..], s1, rest)
                      && sent == o1.sent + rest;
      HandlingAppend(o1.state, commands[1..], s1, rest, command, o);
      assert (commands + [command])[0] == commands[0] && (commands + [command])[1..] == commands[1..] + [command];
      assert (o1.sent + rest) + o.sent == o1.sent + (rest + o.sent);
    }
  }

  /** The commands handled between the two runs lead from the one server to the other. */
  ghost predicate HandledSince(r: R.Run, r': R.Run) {
    && r.handled <= r'.handled <= |r'.log| && r.log <= r'.log && r.sent <= r'.sent
    && Handling(r.server, r'.log[r.handled..r'.handled], r'.server, r'.sent[|r.sent|..])
  }

  lemma EnqueueSince(r: R.Run, r0: R.Run, command: S.Command)
    requires HandledSince(r, r0)
    ensures HandledSince(r, r0.(log := r0.log + [command]))
  {
    assert (r0.log + [command])[r.handled..r0.handled] == r0.log[r.handled..r0.handled];
  }

  lemma TurnSince(r: R.Run, r0: R.Run, o: S.Outcome)
    requires HandledSince(r, r0) && r0.handled < |r0.log| && S.Handles(r0.server, r0.log[r0.handled], o)
    ensures HandledSince(r, R.Turned(r0, o))
  {
    hide S.Handles, Handling;
    var r', command := R.Turned(r0, o), r0.log[r0.handled];
    HandlingAppend(r.server, r0.log[r.handled..r0.handled], r0.server, r0.sent[|r.sent|..], command, o);
    assert r'.log[r.handled..r'.handled] == r0.log[r.handled..r0.handled] + [command];
    assert r'.sent[|r.sent|..] == r0.sent[|r.sent|..] + o.sent;
  }

  lemma {:induction false} LeadsHandles(r: R.Run, events: seq<R.Event>, r': R.Run)
    requires R.Leads(r, events, r') && r.handled <= |r.log|
    ensures HandledSince(r, r')
    decreases |events|
  {
    hide S.Handles;
    if events == [] {
      assert r'.log[r.handled..r'.handled] == [] && r'.sent[|r.sent|..] == [];
    } else {
      var r0 :| R.Leads(r, DropLast(events), r0) && R.Next(r0, LastOf(events), r');
      LeadsHandles(r, DropLast(events), r0);
      hide HandledSince;
      match LastOf(events)
      case Enqueue(command) => EnqueueSince(r, r0, command);
      case Turn =>
        var o :| S.Handles(r0.server, r0.log[r0.handled], o) && r' == R.Turned(r0, o);
        TurnSince(r, r0, o);
    }
  }

  // ---------- The budget along a run ----------

  lemma OneWord(x: S.Command, c: string)
    ensures FinalWords(x, c) == Lasts(Signal(c, x))
  {
  }

  lemma OneOffer(sent: seq<SendData>, c: string)
    requires |sent| <= 1
    ensures OfferedIn(sent, c) == |OffersIn(Traffic(c, sent))|
  {
    if sent == [] {
      assert OffersIn(Traffic(c, [])) == [];
    } else {
      assert sent == [sent[0]];
      TrafficOne(c, sent[0]);
      var m := sent[0];
      if About(c, m) != [] {
        assert About(c, m) == [m];
        FlatMapAppend([], m, OfferedTo);
        assert [] + [m] == [m];
      }
    }
  }

  /** From the call on, every word the server has seen or can still see was paid for by an offer, and the
      call itself is gone. */
  ghost predicate Paid(s: System, c: string, commands: seq<S.Command>, sent: seq<SendData>) {
    && c in s.callers && Calls(CoreOf(s, c)) == 0
    && Lasts(Signals(c, commands)) + Outstanding(CoreOf(s, c)) <= |OffersIn(Traffic(c, sent))|
  }

  lemma CallPaid(s: System, o: S.Outcome, c: string)
    requires Sane(s) && Good(s, c) && Serves(s, o) && InboxCall(c)(s.inbox[0]) != []
    ensures Paid(ServerTurned(s, o), c, [], o.sent)
  {
    hide CoreOf, Sane, Good, FlatMap;
    CallIsAll(s, c);
    TurnBudget(s, o, c);
    HandlesShape(s.server, s.inbox[0], o);
    OneOffer(o.sent, c);
    NoSignals(c);
    assert FinalWords(s.inbox[0], c) == 0;
  }

  lemma NoSignals(c: string)
    ensures Lasts(Signals(c, [])) == 0
  {
  }

  lemma TurnPaid(s: System, o: S.Outcome, c: string, commands: seq<S.Command>, sent: seq<SendData>)
    requires Sane(s) && Good(s, c) && Serves(s, o) && Paid(s, c, commands, sent)
    ensures Paid(ServerTurned(s, o), c, commands + [s.inbox[0]], sent + o.sent)
    ensures InboxCall(c)(s.inbox[0]) == []
  {
    hide CoreOf, Sane, Good, FlatMap, Traffic, Signals;
    TurnBudget(s, o, c);
    NoCallLeft(s, c);
    HandlesShape(s.server, s.inbox[0], o);
    OneOffer(o.sent, c);
    OneWord(s.inbox[0], c);
    SignalsAppend(c, commands, s.inbox[0]);
    OffersAppend(c, sent, o.sent);
  }

  lemma SignalsAppend(c: string, commands: seq<S.Command>, x: S.Command)
    ensures Lasts(Signals(c, commands + [x])) == Lasts(Signals(c, commands)) + Lasts(Signal(c, x))
  {
    FlatMapAppend(commands, x, command => Signal(c, command));
    PartialsConcat(Signals(c, commands), Signal(c, x));
  }

  lemma OffersAppend(c: string, a: seq<SendData>, b: seq<SendData>)
    ensures OffersIn(Traffic(c, a + b)) == OffersIn(Traffic(c, a)) + OffersIn(Traffic(c, b))
  {
    TrafficConcat(c, a, b);
    FlatMapConcat(Traffic(c, a), Traffic(c, b), OfferedTo);
  }

  lemma StepPaid(s: System, step: Step, s': System, c: string, commands: seq<S.Command>, sent: seq<SendData>)
    requires Sane(s) && Good(s, c) && Next(s, step, s') && !step.ServerTurns? && Paid(s, c, commands, sent)
    ensures Paid(s', c, commands, sent)
  {
    hide CoreOf, Sane, Good, Next, Signals, Traffic, FlatMap;
    StepBudget(s, step, s', c);
    CallersStay(s, step, s');
  }

  lemma TraceReaches(states: seq<System>, steps: seq<Step>, k: nat)
    requires Trace(states, steps) && k <= |steps|
    ensures Reaches(steps[..k], states[k])
  {
    hide Next;
    forall j {:trigger steps[..k][j]} | 0 <= j < k
      ensures Next(states[..k + 1][j], steps[..k][j], states[..k + 1][j + 1])
    {
      var step := steps[j];
      assert Next(states[j], step, states[j + 1]);
    }
    assert Trace(states[..k + 1], steps[..k]);
  }

  lemma InvariantAt(states: seq<System>, steps: seq<Step>, k: nat, c: string)
    requires Trace(states, steps) && k <= |steps|
    ensures |states| == |steps| + 1 && Sane(states[k]) && Good(states[k], c)
  {
    hide Next, Sane, Good;
    TraceShape(states, steps);
    TraceReaches(states, steps, k);
    hide Trace;
    AlwaysInvariant(steps[..k], states[k], c);
  }

  /** In step `i` of the run the server takes up the call. */
  ghost predicate TakesCall(states: seq<System>, steps: seq<Step>, i: nat, caller: ClientId, call: Call) {
    && Trace(states, steps) && i < |steps| && steps[i] == ServerTurns
    && states[i].inbox != [] && states[i].inbox[0] == S.RpcCall(caller, call)
  }

  /** What was handled behind the command at which run `r0` stands, and what was sent since. */
  ghost predicate Since(r0: R.Run, r: R.Run, commands: seq<S.Command>, sent: seq<SendData>) {
    && r0.handled < r.handled <= |r.log| && |r0.sent| <= |r.sent|
    && commands == r.log[r0.handled + 1..r.handled] && sent == r.sent[|r0.sent|..]
  }

  ghost predicate NoCallAmong(commands: seq<S.Command>, c: string) {
    forall j :: 0 <= j < |commands| ==> InboxCall(c)(commands[j]) == []
  }

  lemma SinceTurn(r0: R.Run, r: R.Run, o: S.Outcome, commands: seq<S.Command>, sent: seq<SendData>)
    requires Since(r0, r, commands, sent) && r.handled < |r.log|
    ensures Since(r0, R.Turned(r, o), commands + [r.log[r.handled]], sent + o.sent)
  {
    var r' := R.Turned(r, o);
    assert r'.log[r0.handled + 1..r'.handled] == commands + [r.log[r.handled]];
    assert r'.sent[|r0.sent|..] == sent + o.sent;
  }

  lemma SinceEnqueue(r0: R.Run, r: R.Run, command: S.Command, commands: seq<S.Command>, sent: seq<SendData>)
    requires Since(r0, r, commands, sent)
    ensures Since(r0, r.(log := r.log + [command]), commands, sent)
  {
  }

  lemma SinceFirst(r0: R.Run, o: S.Outcome)
    requires r0.handled < |r0.log|
    ensures Since(r0, R.Turned(r0, o), [], o.sent)
  {
    var r := R.Turned(r0, o);
    assert r.log[r0.handled + 1..r.handled] == [] && r.sent[|r0.sent|..] == o.sent;
  }

  lemma {:induction false} PaidAlong(states: seq<System>, steps: seq<Step>, i: nat, caller: ClientId, call: Call,
                                     k: nat)
    returns (commands: seq<S.Command>, sent: seq<SendData>)
    requires TakesCall(states, steps, i, caller, call) && i < k <= |steps|
    ensures |states| == |steps| + 1
    ensures Since(RunAt(states, steps, i), RunAt(states, steps, k), commands, sent)
    ensures Paid(states[k], call.context, commands, sent) && NoCallAmong(commands, call.context)
    decreases k
  {
    hide Next, Trace, Paid, Sane, Good, Since, S.Handles, FlatMap, NoCallAmong, RunAfter;
    TraceShape(states, steps);
    var c, s := call.context, states[k - 1];
    InvariantAt(states, steps, k - 1, c);
    TraceStep(states, steps, k);
    RunAtSimulates(states, steps, k - 1);
    var r0, r := RunAt(states, steps, i), RunAt(states, steps, k - 1);
    if k == i + 1 {
      var o := TurnOf(s, states[k]);
      TurnSimulated(s, o, r);
      SinceFirst(r, o);
      CallPaid(s, o, c);
      NoCommands(c);
      commands, sent := [], o.sent;
    } else {
      commands, sent := PaidAlong(states, steps, i, caller, call, k - 1);
      if steps[k - 1].ServerTurns? {
        var o := TurnOf(s, states[k]);
        TurnSimulated(s, o, r);
        SinceTurn(r0, r, o, commands, sent);
        TurnPaid(s, o, c, commands, sent);
        NoCallMore(commands, s.inbox[0], c);
        commands, sent := commands + [s.inbox[0]], sent + o.sent;
      } else {
        EnqueueSimulated(s, steps[k - 1], states[k], r);
        StepPaid(s, steps[k - 1], states[k], c, commands, sent);
        if RunAt(states, steps, k) != r {
          SinceEnqueue(r0, r, states[k].inbox[|s.inbox|], commands, sent);
        }
      }
    }
  }

  lemma TurnOf(s: System, s': System) returns (o: S.Outcome)
    requires Next(s, ServerTurns, s')
    ensures Serves(s, o) && s' == ServerTurned(s, o) && s.serverUp
  {
    o :| S.Handles(s.server, s.inbox[0], o) && s' == ServerTurned(s, o);
  }

  lemma NoCommands(c: string)
    ensures NoCallAmong([], c)
  {
  }

  lemma NoCallMore(commands: seq<S.Command>, x: S.Command, c: string)
    requires NoCallAmong(commands, c) && InboxCall(c)(x) == []
    ensures NoCallAmong(commands + [x], c)
  {
  }

  // ---------- Every handler is tried in order, in every run of all parts ----------

  /** The command does not touch the function's list and disconnects neither the caller nor a handler. */
  predicate LeavesAlone(command: S.Command, infos: seq<ApiInfo>, caller: ClientId, call: Call) {
    match command
    case NewRpc(_, name, _) => name != call.function_
    case ClientDisconnected(k) => k != caller && k !in Clients(infos)
    case _ => true
  }

  ghost predicate AllLeaveAlone(commands: seq<S.Command>, infos: seq<ApiInfo>, caller: ClientId, call: Call) {
    forall j :: 0 <= j < |commands| ==> LeavesAlone(commands[j], infos, caller, call)
  }

  lemma AllCalm(commands: seq<S.Command>, infos: seq<ApiInfo>, caller: ClientId, call: Call)
    requires AllLeaveAlone(commands, infos, caller, call) && NoCallAmong(commands, call.context)
    ensures forall j :: 0 <= j < |commands| ==> Calm(commands[j], infos, caller, call)
  {
    forall j | 0 <= j < |commands| ensures Calm(commands[j], infos, caller, call) {
      assert LeavesAlone(commands[j], infos, caller, call) && InboxCall(call.context)(commands[j]) == [];
    }
  }

  /** What the server handled and sent of the call makes a dispatch in the sense of the server alone. */
  lemma NetworkDispatches(states: seq<System>, steps: seq<Step>, i: nat, caller: ClientId, call: Call,
                          commands: seq<S.Command>, sent: seq<SendData>)
    requires TakesCall(states, steps, i, caller, call)
    requires Since(RunAt(states, steps, i), RunAt(states, steps, |steps|), commands, sent)
    requires NoCallAmong(commands, call.context)
    requires var infos := Infos(states[i].server.apiTable, call.function_);
             infos != [] && AllLeaveAlone(commands, infos, caller, call) && !S.IsCore(call)
    ensures exists past :: Dispatches(past, states[i].server, caller, call, commands, sent)
  {
    hide Next, Trace, S.Handles, Handling, Calm, NoCallAmong, AllLeaveAlone, RunAfter, Since, RunAt;
    TraceShape(states, steps);
    var server := states[i].server;
    var past, before := PastHandles(states, steps, i);
    SinceHandles(states, steps, i, caller, call, commands, sent);
    AllCalm(commands, Infos(server.apiTable, call.function_), caller, call);
    assert Dispatches(past, server, caller, call, commands, sent);
  }

  lemma PastHandles(states: seq<System>, steps: seq<Step>, i: nat) returns (past: seq<S.Command>, before: seq<SendData>)
    requires Trace(states, steps) && i <= |steps|
    ensures |states| == |steps| + 1 && Handling(S.INITIAL_STATE, past, states[i].server, before)
  {
    hide Next, Trace, S.Handles, Handling, RunAfter;
    TraceShape(states, steps);
    RunAtSimulates(states, steps, i);
    var events := RunAtLeads(states, steps, 0, i);
    var r := RunAt(states, steps, i);
    LeadsHandles(R.NEW_RUN, events, r);
    past, before := r.log[0..r.handled], r.sent[0..];
  }

  lemma SinceHandles(states: seq<System>, steps: seq<Step>, i: nat, caller: ClientId, call: Call,
                     commands: seq<S.Command>, sent: seq<SendData>)
    requires TakesCall(states, steps, i, caller, call)
    requires Since(RunAt(states, steps, i), RunAt(states, steps, |steps|), commands, sent)
    ensures |states| == |steps| + 1
    ensures Handling(states[i].server, [S.RpcCall(caller, call)] + commands, RunAt(states, steps, |steps|).server, sent)
  {
    hide Next, Trace, S.Handles, Handling, RunAfter, RunAt;
    TraceShape(states, steps);
    RunAtSimulates(states, steps, i);
    var events := RunAtLeads(states, steps, i, |steps|);
    var r0, r := RunAt(states, steps, i), RunAt(states, steps, |steps|);
    LeadsHandles(r0, events, r);
    CallAhead(r0, r, states[i], S.RpcCall(caller, call), commands);
  }

  lemma CallAhead(r0: R.Run, r: R.Run, s: System, x: S.Command, commands: seq<S.Command>)
    requires Simulates(s, r0) && s.inbox != [] && s.inbox[0] == x
    requires r0.log <= r.log && r0.handled < r.handled <= |r.log|
    requires commands == r.log[r0.handled + 1..r.handled]
    ensures r.log[r0.handled..r.handled] == [x] + commands
  {
    assert r0.log[r0.handled..][0] == r0.log[r0.handled] == r.log[r0.handled];
  }

  lemma {:induction false} WordsOfSignals(signals: seq<ResponseKind>)
    ensures Refusals(signals) + |Answer(signals)| <= Lasts(signals)
  {
    if signals != [] {
      WordsOfSignals(signals[1..]);
    }
  }

  /**
   The promise of layered dispatch, in every run of all parts. Let the server take up a call of a
   function whose handlers are distinct clients, and let the list, its clients and the caller stay as
   they are. Then the handlers offered the call are a prefix of the list, which is sorted by priority,
   each once; and the caller is sent at most one final response: the first answer, or `NotHandled` when
   every handler has refused.
   */
  lemma NetworkTriedInOrder(states: seq<System>, steps: seq<Step>, i: nat, caller: ClientId, call: Call,
                            commands: seq<S.Command>, sent: seq<SendData>)
    requires TakesCall(states, steps, i, caller, call) && !S.IsCore(call)
    requires Since(RunAt(states, steps, i), RunAt(states, steps, |steps|), commands, sent)
    requires var infos := Infos(states[i].server.apiTable, call.function_);
             infos != [] && Distinct(Clients(infos)) && AllLeaveAlone(commands, infos, caller, call)
    ensures Ascending(Infos(states[i].server.apiTable, call.function_))
    ensures var handlers := Clients(Infos(states[i].server.apiTable, call.function_));
            var signals := Signals(call.context, commands);
            var traffic := Traffic(call.context, sent);
            && Refusals(signals) <= |handlers|
            && OffersIn(traffic) == handlers[..Min(|handlers|, 1 + Refusals(signals))]
            && FinalsIn(traffic) == if Refusals(signals) == |handlers| then [NotHandled] else Answer(signals)
  {
    hide Next, Trace, S.Handles, Handling, RunAfter, RunAt, Paid, Since, Dispatches;
    hide Distinct, AllLeaveAlone, NoCallAmong;
    TraceShape(states, steps);
    var commands', sent' := PaidAlong(states, steps, i, caller, call, |steps|);
    SinceOnce(RunAt(states, steps, i), RunAt(states, steps, |steps|), commands, sent, commands', sent');
    NetworkDispatches(states, steps, i, caller, call, commands, sent);
    var server := states[i].server;
    var past :| Dispatches(past, server, caller, call, commands, sent);
    DispatchRefinesFold(past, server, caller, call, commands, sent);
    TriedInOrder(past, server, caller, call, commands, sent);
    WordsOfSignals(Signals(call.context, commands));
    PaidWords(states[|steps|], call.context, commands, sent);
  }

  lemma SinceOnce(r0: R.Run, r: R.Run, commands: seq<S.Command>, sent: seq<SendData>,
                  commands': seq<S.Command>, sent': seq<SendData>)
    requires Since(r0, r, commands, sent) && Since(r0, r, commands', sent')
    ensures commands == commands' && sent == sent'
  {
  }

  lemma PaidWords(s: System, c: string, commands: seq<S.Command>, sent: seq<SendData>)
    requires Paid(s, c, commands, sent)
    ensures Lasts(Signals(c, commands)) <= |OffersIn(Traffic(c, sent))|
  {
  }
}
