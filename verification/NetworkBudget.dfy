/**
 How often one call can still be taken up, and how many final words on it the server can still see. No
 step of the network adds to either, except that the server adds a word with every offer it sends.
 */
module NetworkBudget {
  import opened Wrappers
  import opened Rpc
  import opened Sequences
  import S = Swiboe
  import L = RpcLoop
  import C = CalleeContext
  import opened CallProtocol
  import opened Network
  import opened NetworkInvariant
  import opened NetworkClients
  import opened NetworkLoops
  import opened NetworkServer

  /** Copies of the call that the server has still to see. */
  function Calls(c: Core): nat { c.unsent + c.sent }

  /** Final responses and failed offers the server can still see without offering the call again. */
  function Outstanding(c: Core): nat { c.offers + |c.procs.alive| + Lasts(c.up) }

  ghost predicate NoMore(core: Core, core': Core) {
    Calls(core') <= Calls(core) && Outstanding(core') <= Outstanding(core)
  }

  // ---------- Steps of the loops ----------

  lemma LoopBudget(s: System, i: nat, c: string)
    requires Sane(s) && Good(s, c) && CanTurn(s, i) && c in s.callers
    ensures NoMore(CoreOf(s, c), CoreOf(LoopTurned(s, i), c))
  {
    hide CoreOf, CoreInv, FlatMap, LoopTurned;
    assert ItemWellFormed(s.loopQueue[i]);
    GoodParts(s, c);
    if LoopCall(c)(s.loopQueue[i]) != [] {
      ConcernedIsHeard(s, i, c);
      CallCore(s, i, c);
    } else if LoopOffer(c)(s.loopQueue[i]) != [] {
      OfferBudget(s, i, c);
    } else if LoopResponse(c)(s.loopQueue[i]) != [] {
      ResponseCore(s, i, c);
    } else if LoopForward(c)(s.loopQueue[i]) != [] {
      ForwardIsExpected(s, i, c);
      ConcernedIsHeard(s, i, c);
      PassedOnCore(s, i, c);
    } else {
      OtherCore(s, i, c);
    }
  }

  lemma GoodParts(s: System, c: string)
    requires Good(s, c)
    ensures CoreInv(CoreOf(s, c)) && Tags(s, c)
  {
    hide CoreInv, CoreOf;
  }

  lemma OfferBudget(s: System, i: nat, c: string)
    requires TakesOffer(s, i, c)
    ensures NoMore(CoreOf(s, c), CoreOf(LoopTurned(s, i), c))
  {
    hide CoreOf, LoopTurned, TurnOutcome;
    OfferMoves(s, i, c);
    var p := CoreOf(s, c).procs;
    assert p.alive[p.started := s.loopQueue[i].client].Keys == p.alive.Keys + {p.started};
  }

  // ---------- Steps of procedures ----------

  lemma CalleeBudget(s: System, i: nat, op: C.Op, c: string)
    requires i < |s.callees|
    ensures NoMore(CoreOf(s, c), CoreOf(CalleeActed(s, i, op), c))
  {
    hide CoreOf, CalleeActed;
    if s.callees[i].context != c || !s.callees[i].state.Alive? {
      CalleeOtherCore(s, i, op, c);
    } else {
      CalleeOwnBudget(s, i, op, c);
    }
  }

  lemma CalleeOwnBudget(s: System, i: nat, op: C.Op, c: string)
    requires i < |s.callees| && s.callees[i].context == c && s.callees[i].state.Alive?
    ensures NoMore(CoreOf(s, c), CoreOf(CalleeActed(s, i, op), c))
  {
    hide CoreOf, FlatMap, NoMore;
    AliveCounts(s, i, c);
    match C.Emission(s.callees[i].state, CalleeEvent(s, i, op))
    case None =>
      QuietCore(s, i, CalleeAfter(s, i, op), c);
      assert CalleeActed(s, i, op) == s.(callees := s.callees[i := CalleeAfter(s, i, op)]);
      StopBudget(CoreOf(s, c), i);
    case Some(kind) =>
      EmitCore(s, i, op, kind, c);
      EmitBudget(CoreOf(s, c), i, kind);
  }

  lemma StopBudget(core: Core, i: nat)
    requires |core.procs.alive - {i}| <= |core.procs.alive|
    ensures NoMore(core, core) && NoMore(core, core.(procs := core.procs.(alive := core.procs.alive - {i})))
  {
  }

  lemma EmitBudget(core: Core, i: nat, kind: ResponseKind)
    requires |core.procs.alive - {i}| == |core.procs.alive| - 1
    ensures NoMore(core, core.(up := core.up + [kind], procs := AfterEmitting(core.procs, i, kind)))
  {
    PartialsConcat(core.up, [kind]);
    assert Lasts([kind]) == if kind.Last? then 1 else 0;
  }

  lemma AliveCounts(s: System, i: nat, c: string)
    requires i < |s.callees| && s.callees[i].context == c && s.callees[i].state.Alive?
    ensures var alive := CoreOf(s, c).procs.alive; i in alive && |alive - {i}| == |alive| - 1
  {
    var alive := AliveFor(s.callees, c);
    assert i in alive;
    assert (alive - {i}).Keys == alive.Keys - {i};
  }

  // ---------- The other steps ----------

  lemma BridgeBudget(s: System, c: string)
    requires Good(s, c) && s.bridge != []
    ensures NoMore(CoreOf(s, c), CoreOf(BridgeSent(s), c))
  {
    if SentForward(c)(s.bridge[0]) == [] {
      BridgeNoForward(s, c);
    } else {
      BridgeUnheard(s, c);
      if s.bridge[0].receiver in s.live {
        BridgeForward(s, c);
      } else {
        BridgeBounce(s, c);
      }
    }
    hide CoreOf;
  }

  lemma QueueBudget(s: System, step: Step, s': System, c: string)
    requires Sane(s) && Good(s, c) && Next(s, step, s')
    requires step.Connect? || step.HangUp? || step.BridgeSends? || step.DownArrives? || step.UpArrives?
    ensures NoMore(CoreOf(s, c), CoreOf(s', c))
  {
    hide CoreOf, Good;
    match step
    case Connect(k) => ConnectCore(s, k, c);
    case HangUp(k) => HangUpCore(s, k, c);
    case BridgeSends => BridgeBudget(s, c);
    case DownArrives(i) => GoodParts(s, c); DownCore(s, i, c);
    case UpArrives(i) => GoodParts(s, c); UpCore(s, i, c);
  }

  lemma AppBudget(s: System, step: Step, s': System, c: string)
    requires Good(s, c) && Next(s, step, s') && c in s.callers
    requires step.AppCalls? || step.AppCancels? || step.AppRegisters? || step.AppQuits?
    ensures CoreOf(s', c) == CoreOf(s, c)
  {
    hide CoreOf, Good;
    match step
    case AppCalls(k, call) => GoodParts(s, c); AppCallOther(s, k, call, c);
    case AppCancels(context) => PlainCore(s, s.callers[context].client, L.CancelOutgoingRpc(context), c);
    case AppRegisters(k, name) => PlainCore(s, k, L.NewRpc(name), c);
    case AppQuits(k) => PlainCore(s, k, L.Quit, c);
  }

  lemma PlainCore(s: System, k: ClientId, command: L.Command<string>, c: string)
    requires Plain(command)
    ensures CoreOf(Enqueued(s, k, command), c) == CoreOf(s, c)
  {
    hide CoreOf;
    PlainConcernsNobody(k, command, c);
    EnqueuedCore(s, LoopItem(k, command), c);
  }

  lemma CallersStay(s: System, step: Step, s': System)
    requires Next(s, step, s')
    ensures s.callers.Keys <= s'.callers.Keys
  {
    if step.LoopTurns? {
      TurnKeepsCallers(s, step.i);
    }
  }

  /** No step but the server's turn adds to what can still be seen of a call that was made. */
  lemma StepBudget(s: System, step: Step, s': System, c: string)
    requires Sane(s) && Good(s, c) && c in s.callers && Next(s, step, s') && !step.ServerTurns?
    ensures NoMore(CoreOf(s, c), CoreOf(s', c))
  {
    hide CoreOf, Good, Sane, NoMore;
    match step
    case LoopTurns(i) => LoopBudget(s, i, c);
    case CalleeActs(i, op) => CalleeBudget(s, i, op, c);
    case AppCalls(_, _) | AppCancels(_) | AppRegisters(_, _) | AppQuits(_) =>
      AppBudget(s, step, s', c);
      Same(CoreOf(s, c));
    case _ => QueueBudget(s, step, s', c);
  }

  lemma Same(core: Core)
    ensures NoMore(core, core)
  {
  }

  // ---------- The server's turn ----------

  /** Final words on the call in one command. */
  function FinalWords(x: S.Command, c: string): nat {
    |InboxBounce(c)(x)| + Lasts(InboxResponse(c)(x))
  }

  /** The server's turn takes what is in its command, and adds one word per offer. */
  lemma TurnBudget(s: System, o: S.Outcome, c: string)
    requires Sane(s) && Good(s, c) && Serves(s, o)
    ensures Calls(CoreOf(ServerTurned(s, o), c)) + |InboxCall(c)(s.inbox[0])| == Calls(CoreOf(s, c))
    ensures Outstanding(CoreOf(ServerTurned(s, o), c)) + FinalWords(s.inbox[0], c)
         == Outstanding(CoreOf(s, c)) + OfferedIn(o.sent, c)
  {
    hide CoreOf, ServerTurned, CoreInv, Sane, Serves, Served, OfferedIn, Agrees;
    GoodParts(s, c);
    ServerAgrees(s, o, c);
    ServedCore(s, o, c);
    AgreesBounds(CoreOf(s, c), s.server, s.inbox[0], c);
    ServedBudget(CoreOf(s, c), s.inbox[0], o.sent, EntryOf(o.state, c), c);
  }

  lemma AgreesBounds(core: Core, server: S.State, x: S.Command, c: string)
    requires Agrees(core, server, x, c)
    ensures |InboxCall(c)(x)| <= core.sent && InboxResponse(c)(x) <= core.up && |InboxBounce(c)(x)| <= core.offers
  {
  }

  lemma ServedBudget(core: Core, x: S.Command, sent: seq<SendData>, entry: Option<S.RunningRpc>, c: string)
    requires |InboxCall(c)(x)| <= core.sent && InboxResponse(c)(x) <= core.up && |InboxBounce(c)(x)| <= core.offers
    ensures Calls(Served(core, x, sent, entry, c)) + |InboxCall(c)(x)| == Calls(core)
    ensures Outstanding(Served(core, x, sent, entry, c)) + FinalWords(x, c) == Outstanding(core) + OfferedIn(sent, c)
  {
    hide OfferedIn, ForwardedIn, InboxCall, InboxBounce, InboxResponse, Lasts, Forwarded;
    UpSplit(core.up, InboxResponse(c)(x));
    if ForwardedIn(sent, c) != [] {
      var taken := core.(sent := core.sent - |InboxCall(c)(x)|,
                         offers := core.offers + OfferedIn(sent, c) - |InboxBounce(c)(x)|,
                         up := core.up[|InboxResponse(c)(x)|..], entry := entry);
      ForwardingIsFree(taken, ForwardedIn(sent, c)[0]);
    }
  }

  lemma ForwardingIsFree(core: Core, kind: ResponseKind)
    ensures Calls(Forwarded(core, kind)) == Calls(core) && Outstanding(Forwarded(core, kind)) == Outstanding(core)
  {
    hide Lasts;
  }

  lemma UpSplit(up: seq<ResponseKind>, front: seq<ResponseKind>)
    requires front <= up
    ensures Lasts(up) == Lasts(front) + Lasts(up[|front|..])
  {
    assert up == front + up[|front|..];
    PartialsConcat(front, up[|front|..]);
  }

  /** A call on its way to the server is all there is of it. */
  lemma CallIsAll(s: System, c: string)
    requires Good(s, c) && s.inbox != [] && InboxCall(c)(s.inbox[0]) != []
    ensures c in s.callers && Calls(CoreOf(s, c)) == 1 && Outstanding(CoreOf(s, c)) == 0
  {
    assert FlatMap(s.inbox, InboxCall(c)) == InboxCall(c)(s.inbox[0]) + FlatMap(s.inbox[1..], InboxCall(c));
    assert CoreOf(s, c).sent > 0;
  }

  /** When the call has been seen, it is not seen again. */
  lemma NoCallLeft(s: System, c: string)
    requires Calls(CoreOf(s, c)) == 0 && s.inbox != []
    ensures InboxCall(c)(s.inbox[0]) == []
  {
    assert FlatMap(s.inbox, InboxCall(c)) == InboxCall(c)(s.inbox[0]) + FlatMap(s.inbox[1..], InboxCall(c));
  }
}
