/** What holds in every run of the network. */
module NetworkTheorems {
  import opened Wrappers
  import opened Rpc
  import opened Sequences
  import S = Swiboe
  import L = RpcLoop
  import C = CalleeContext
  import CC = CallerContext
  import opened CallProtocol
  import opened Network
  import opened NetworkInvariant
  import opened NetworkClients
  import opened NetworkLoops
  import opened NetworkServer

  // ---------- The invariant holds initially and is kept by every step ----------

  lemma InitiallyGood(c: string)
    ensures Good(INITIAL_SYSTEM, c)
  {
    assert CoreOf(INITIAL_SYSTEM, c) == Blank(c, ClientId(0, 0), 0, false, true);
    assert AnsweredBy([], [], c, ClientId(0, 0));
  }

  lemma ConnectSane(s: System, k: ClientId)
    requires Sane(s) && s.nextSerial <= k.serial
    ensures Sane(Connected(s, k))
  {
  }

  lemma HangUpSane(s: System, k: ClientId)
    requires Sane(s) && k in s.live
    ensures Sane(HungUp(s, k))
  {
  }

  lemma BridgeSane(s: System)
    requires Sane(s) && s.bridge != []
    ensures Sane(BridgeSent(s))
  {
  }

  lemma DownSane(s: System, i: nat)
    requires Sane(s) && i < |s.down|
    ensures Sane(DownArrived(s, i))
  {
  }

  lemma UpSane(s: System, i: nat)
    requires Sane(s) && i < |s.up|
    ensures Sane(UpArrived(s, i))
  {
  }

  lemma LoopSane(s: System, i: nat)
    requires Sane(s) && CanTurn(s, i)
    ensures Sane(LoopTurned(s, i))
  {
    TurnKeepsCallers(s, i);
    var k, o := s.loopQueue[i].client, TurnOutcome(s, i);
    assert ItemWellFormed(s.loopQueue[i]);
    assert forall c :: c in o.state.runningFunctionCalls ==> o.state.runningFunctionCalls[c] == c;
  }

  lemma ServerSane(s: System, o: S.Outcome)
    requires Sane(s) && Serves(s, o)
    ensures Sane(ServerTurned(s, o))
  {
    HandlesShape(s.server, s.inbox[0], o);
    var s' := ServerTurned(s, o);
    assert forall i :: 0 <= i < |s'.inbox| ==>
      (i < |s.inbox| - 1 && s'.inbox[i] == s.inbox[i + 1]) || s'.inbox[i] in o.enqueued;
    assert forall c :: c in o.state.runningRpcs ==> o.state.runningRpcs[c].rpcCall.context == c;
  }

  lemma CalleeSane(s: System, i: nat, op: C.Op)
    requires Sane(s) && i < |s.callees|
    ensures Sane(CalleeActed(s, i, op))
  {
  }

  lemma EnqueuedSane(s: System, k: ClientId, command: L.Command<string>)
    requires Sane(s) && ItemWellFormed(LoopItem(k, command))
    ensures Sane(Enqueued(s, k, command))
  {
  }

  lemma AppCallSane(s: System, k: ClientId, call: Call)
    requires Sane(s) && k in s.loops
    ensures Sane(AppCalled(s, k, call))
  {
  }

  lemma NextKeepsSane(s: System, step: Step, s': System)
    requires Sane(s) && Next(s, step, s')
    ensures Sane(s')
  {
    match step
    case Connect(k) => ConnectSane(s, k);
    case HangUp(k) => HangUpSane(s, k);
    case BridgeSends => BridgeSane(s);
    case DownArrives(i) => DownSane(s, i);
    case UpArrives(i) => UpSane(s, i);
    case LoopTurns(i) => LoopSane(s, i);
    case ServerTurns =>
      var o :| S.Handles(s.server, s.inbox[0], o) && s' == ServerTurned(s, o);
      ServerSane(s, o);
    case CalleeActs(i, op) => CalleeSane(s, i, op);
    case AppCalls(k, call) => AppCallSane(s, k, call);
    case AppCancels(context) => EnqueuedSane(s, s.callers[context].client, L.CancelOutgoingRpc(context));
    case AppRegisters(k, name) => EnqueuedSane(s, k, L.NewRpc(name));
    case AppQuits(k) => EnqueuedSane(s, k, L.Quit);
  }

  lemma AppStepKeepsGood(s: System, step: Step, s': System, c: string)
    requires Good(s, c) && Next(s, step, s')
    requires step.AppCancels? || step.AppRegisters? || step.AppQuits?
    ensures Good(s', c)
  {
    hide Good;
    match step
    case AppCancels(context) => PlainKeeps(s, s.callers[context].client, L.CancelOutgoingRpc(context), c);
    case AppRegisters(k, name) => PlainKeeps(s, k, L.NewRpc(name), c);
    case AppQuits(k) => PlainKeeps(s, k, L.Quit, c);
  }

  lemma QueueStepKeepsGood(s: System, step: Step, s': System, c: string)
    requires Sane(s) && Good(s, c) && Next(s, step, s')
    requires step.Connect? || step.HangUp? || step.BridgeSends? || step.DownArrives? || step.UpArrives?
    ensures Good(s', c)
  {
    hide Good;
    match step
    case Connect(k) => ConnectKeeps(s, k, c);
    case HangUp(k) => HangUpKeeps(s, k, c);
    case BridgeSends => BridgeSendsKeeps(s, c);
    case DownArrives(i) => DownArrivesKeeps(s, i, c);
    case UpArrives(i) => UpArrivesKeeps(s, i, c);
  }

  lemma LoopStepKeepsGood(s: System, step: Step, s': System, c: string)
    requires Sane(s) && Good(s, c) && Next(s, step, s')
    requires step.LoopTurns? || step.CalleeActs? || step.AppCalls?
    ensures Good(s', c)
  {
    hide Good;
    match step
    case LoopTurns(i) => LoopTurnsKeeps(s, i, c);
    case CalleeActs(i, op) => CalleeActsKeeps(s, i, op, c);
    case AppCalls(k, call) => AppCallsKeeps(s, k, call, c);
  }

  lemma ServerStepKeepsGood(s: System, s': System, c: string)
    requires Sane(s) && Good(s, c) && Next(s, ServerTurns, s')
    ensures Good(s', c)
  {
    var o :| S.Handles(s.server, s.inbox[0], o) && s' == ServerTurned(s, o);
    ServerTurnsKeeps(s, o, c);
  }

  lemma NextKeepsGood(s: System, step: Step, s': System, c: string)
    requires Sane(s) && Good(s, c) && Next(s, step, s')
    ensures Good(s', c)
  {
    hide Good;
    match step
    case ServerTurns => ServerStepKeepsGood(s, s', c);
    case LoopTurns(_) | CalleeActs(_, _) | AppCalls(_, _) => LoopStepKeepsGood(s, step, s', c);
    case Connect(_) | HangUp(_) | BridgeSends | DownArrives(_) | UpArrives(_) => QueueStepKeepsGood(s, step, s', c);
    case AppCancels(_) | AppRegisters(_, _) | AppQuits(_) => AppStepKeepsGood(s, step, s', c);
  }

  lemma {:induction false} AlwaysInvariant(steps: seq<Step>, s: System, c: string)
    requires Reaches(steps, s)
    ensures Sane(s) && Good(s, c)
    decreases |steps|
  {
    if steps == [] {
      InitiallyGood(c);
    } else {
      hide Sane, Good, Next;
      var s0 := ReachesLast(steps, s);
      AlwaysInvariant(DropLast(steps), s0, c);
      NextKeepsSane(s0, LastOf(steps), s);
      NextKeepsGood(s0, LastOf(steps), s, c);
    }
  }

  // ---------- The obligation to answer ----------

  /** Final responses a caller has received. */
  function FinalsReceived(s: System, c: string): nat {
    Lasts(Received(s.callers, c))
  }

  /** Everywhere the obligation to answer call `c` can be: the call on its way to the server, an
      offer to a handler (delivered, under way or bounced), a procedure that may still answer, a
      final response on its way to the server, and final responses for the caller. */
  function Obligations(s: System, c: string): nat {
    |FlatMap(s.loopQueue, LoopCall(c))| + |FlatMap(s.up, UpCall(c))| + |FlatMap(s.inbox, InboxCall(c))|
    + Offers(s.inbox, s.bridge, s.down, s.loopQueue, c)
    + |AliveFor(s.callees, c)|
    + Lasts(Upstream(s.inbox, s.up, s.loopQueue, c))
    + Lasts(FrontOf(s, c) + Waiting(s.bridge, c))
  }

  /** In every run, for every context, the obligation to answer exists at most once; without a
      call it does not exist. */
  lemma ObligationConservation(steps: seq<Step>, s: System, c: string)
    requires Reaches(steps, s)
    ensures Obligations(s, c) <= 1
    ensures c !in s.callers ==> Obligations(s, c) == 0
  {
    AlwaysInvariant(steps, s, c);
    assert Obligations(s, c) == Tokens(CoreOf(s, c));
    assert Lasts([]) == 0;
  }

  // ---------- Streaming ----------

  /** What procedures have answered to call `c`, in the order of emission. */
  function EmittedFor(s: System, c: string): seq<Emission> {
    FlatMap(s.log, LogEmission(c))
  }

  lemma FrontPart(core: Core, delivered: seq<ResponseKind>, rest: seq<ResponseKind>)
    requires CoreInv(core) && core.reached == delivered + rest
    ensures FinalOnlyLast(delivered)
    ensures Partials(delivered) <= Partials(EmittedKinds(core.procs.emitted))
    ensures Lasts(delivered) > 0 ==> delivered == core.reached
  {
    FrontOfFinal(delivered, rest);
    PartialsConcat(delivered, rest);
    var kinds, seen := EmittedKinds(core.procs.emitted), Seen(core.up, core.procs.emitted);
    assert kinds == seen + kinds[|seen|..];
    PartialsConcat(seen, kinds[|seen|..]);
  }

  lemma ReceivedIsFront(s: System, c: string)
    ensures exists rest :: CoreOf(s, c).reached == Received(s.callers, c) + rest
  {
    var a, b := FlatMap(s.loopQueue, LoopForward(c)), FlatMap(s.down, SentForward(c));
    var w := if CallerOf(s.callers, c) in s.live then Waiting(s.bridge, c) else [];
    assert Received(s.callers, c) + a + b + w == Received(s.callers, c) + (a + b + w);
    if CallerOf(s.callers, c) !in s.live {
      assert FrontOf(s, c) == Received(s.callers, c) + (a + b + w);
    }
  }

  /**
   In every run, what a caller's context has received of its call is: a first part of the partial
   results of the handlers tried, handler after handler and each in emission order, followed by at
   most one final response with nothing behind it. When the final response is there, no partial
   result is missing, and it is the last handler's own answer, a refusal by all handlers, or, if no
   handler said anything, the server's.
   */
  lemma Streaming(steps: seq<Step>, s: System, c: string)
    requires Reaches(steps, s)
    ensures WellEmitted(EmittedFor(s, c))
    ensures FinalOnlyLast(Received(s.callers, c))
    ensures Partials(Received(s.callers, c)) <= Partials(EmittedKinds(EmittedFor(s, c)))
    ensures FinalsReceived(s, c) > 0 ==>
      && Partials(Received(s.callers, c)) == Partials(EmittedKinds(EmittedFor(s, c)))
      && (EmittedFor(s, c) != [] ==>
            || LastOf(Received(s.callers, c)) == Last(NotHandled)
            || LastOf(Received(s.callers, c)) == LastOf(EmittedFor(s, c)).kind)
  {
    AlwaysInvariant(steps, s, c);
    ReceivedIsFront(s, c);
    var rest :| CoreOf(s, c).reached == Received(s.callers, c) + rest;
    FrontPart(CoreOf(s, c), Received(s.callers, c), rest);
  }

  /** A final response that reaches the caller is the end of the call everywhere: no copy of the
      call, no offer, no procedure and no response is left. */
  lemma AnsweredIsOver(steps: seq<Step>, s: System, c: string)
    requires Reaches(steps, s) && FinalsReceived(s, c) > 0
    ensures Offers(s.inbox, s.bridge, s.down, s.loopQueue, c) == 0
    ensures AliveFor(s.callees, c) == map[]
    ensures Upstream(s.inbox, s.up, s.loopQueue, c) == []
    ensures FinalsReceived(s, c) == 1
  {
    AlwaysInvariant(steps, s, c);
    ReceivedIsFront(s, c);
    var core, rest :| core == CoreOf(s, c) && core.reached == Received(s.callers, c) + rest;
    PartialsConcat(Received(s.callers, c), rest);
    assert core.finals > 0;
  }

  /** Waiting on a context takes exactly the partial results and then the final one. */
  lemma WaitTakesAll(steps: seq<Step>, s: System, c: string)
    requires Reaches(steps, s)
    ensures var kinds := Received(s.callers, c);
            CC.PartialsAhead(kinds) == if FinalsReceived(s, c) > 0 then |kinds| - 1 else |kinds|
  {
    Streaming(steps, s, c);
    LastsZero(Received(s.callers, c));
  }
}
